/** `SAXVCoin` of saxv_coin_v4lite_sync.py: the owner-less coin of v3 Lite with
    mined blocks, a dictionary form of its whole state, and the decision that
    adopts a copy found in a sync folder. Files, folders and backups are not
    modelled; what they would yield is passed in. */
module CoinV4Lite {
  import opened Wrappers
  import opened Text
  import opened Ledger
  import opened PipeBlocks

  /** `MAX_SUPPLY` */
  const MaxSupply: int := 31_000_000

  /** What `validate_chain` answers: a non-empty chain whose later blocks all pass. */
  predicate ChainValid(sha256: string -> string, chain: seq<Block>) {
    |chain| > 0 && forall i :: 1 <= i < |chain| ==> PowBlockOk(sha256, chain, i)
  }

  /** A block linked to the tip, carrying its own hash, with the prefix, keeps a
      valid chain valid. */
  lemma ExtendValid(sha256: string -> string, chain: seq<Block>, b: Block)
    requires ChainValid(sha256, chain)
    requires b.previousHash == chain[|chain| - 1].hash
    requires b.hash == CalculateHash(sha256, b) && HasZeros(b.hash, Difficulty)
    ensures ChainValid(sha256, chain + [b])
  {
    var c := chain + [b];
    forall i | 1 <= i < |c|
      ensures PowBlockOk(sha256, c, i)
    {
      if i < |chain| {
        assert PowBlockOk(sha256, chain, i);
      }
    }
  }

  /** The block `mint_equal` adds with `skip_pow` sits at index >= 1, so the
      chain with it validates only if its hash happens to have the prefix. */
  lemma UnminedBlockNeedsLuckyHash(sha256: string -> string, chain: seq<Block>, b: Block)
    requires |chain| > 0 && b.index >= 1
    requires ChainValid(sha256, chain + [b])
    ensures HasZeros(b.hash, Difficulty)
  {
    assert PowBlockOk(sha256, chain + [b], |chain|);
  }

  /** `Block(...)` as `_load_from_dict` calls it: a `hash_value` other than
      `None` is kept as it is, otherwise the hash is computed. */
  function MakeBlock(sha256: string -> string, index: int, transactions: string, previousHash: string,
                     timestamp: Time, nonce: int, hashValue: Option<string>): (b: Block)
    ensures b.index == index && b.timestamp == timestamp && b.nonce == nonce
    ensures b.transactions == transactions && b.previousHash == previousHash
    ensures b.hash == if hashValue.Some? then hashValue.value else CalculateHash(sha256, b)
  {
    var computed := NewBlock(sha256, index, transactions, previousHash, timestamp, nonce);
    if hashValue.Some? then computed.(hash := hashValue.value) else computed
  }

  /** One entry of the `"chain"` list, as `Block.to_dict` writes it; a key that
      is missing (or `null`) is `None`. */
  datatype BlockRecord = BlockRecord(
    index: Option<int>, timestamp: Option<Time>, transactions: string,
    previousHash: string, nonce: Option<int>, hash: Option<string>)

  /** The dictionary `_to_dict` builds and `_load_from_dict` reads. `otherKeys`
      says whether keys besides these three are present. */
  datatype Snapshot = Snapshot(
    totalSupply: Option<int>, balances: Option<Balances>,
    chain: Option<seq<BlockRecord>>, otherKeys: bool)

  /** Python truth of a parsed dictionary: false only when it is empty. */
  predicate Truthy(d: Snapshot) {
    d.totalSupply.Some? || d.balances.Some? || d.chain.Some? || d.otherKeys
  }

  function ToRecord(b: Block): BlockRecord {
    BlockRecord(Some(b.index), Some(b.timestamp), b.transactions, b.previousHash, Some(b.nonce), Some(b.hash))
  }

  function ToRecords(chain: seq<Block>): (rs: seq<BlockRecord>)
    ensures |rs| == |chain|
    ensures forall i :: 0 <= i < |chain| ==> rs[i] == ToRecord(chain[i])
  {
    if chain == [] then [] else [ToRecord(chain[0])] + ToRecords(chain[1..])
  }

  /** `_to_dict` */
  function ToDict(totalSupply: int, balances: Balances, chain: seq<Block>): Snapshot {
    Snapshot(Some(totalSupply), Some(balances), Some(ToRecords(chain)), false)
  }

  /** One record read back: a missing timestamp becomes `now`, a missing index
      or nonce makes `int(None)` raise `TypeError`. */
  function FromRecord(sha256: string -> string, r: BlockRecord, now: Time): Outcome<Block> {
    if r.index.None? || r.nonce.None? then Raised(TypeError)
    else
      var ts := if r.timestamp.Some? then r.timestamp.value else now;
      Returned(MakeBlock(sha256, r.index.value, r.transactions, r.previousHash, ts, r.nonce.value, r.hash))
  }

  /** The blocks the loop of `_load_from_dict` appends, in order, up to the first
      record that raises, and that error if there is one. */
  function FromRecords(sha256: string -> string, rs: seq<BlockRecord>, now: Time): Read
  {
    if rs == [] then Read([], None)
    else match FromRecord(sha256, rs[0], now)
      case Raised(e) => Read([], Some(e))
      case Returned(b) =>
        var rest := FromRecords(sha256, rs[1..], now);
        Read([b] + rest.blocks, rest.error)
  }

  /** Blocks read and the error that stopped the reading, if any. */
  datatype Read = Read(blocks: seq<Block>, error: Option<PyError>)

  function Genesis(sha256: string -> string, now: Time): Block {
    NewBlock(sha256, 0, "Genesis Block", "0", now, 0)
  }

  /** The state `_load_from_dict` leaves and what it raises. A raise leaves the
      supply and balances already taken over and the blocks read so far. */
  datatype Loaded = Loaded(totalSupply: int, balances: Balances, chain: seq<Block>, error: Option<PyError>)

  function LoadState(sha256: string -> string, d: Snapshot, now: Time): Loaded {
    var total := if d.totalSupply.Some? then d.totalSupply.value else 0;
    var bal := if d.balances.Some? then d.balances.value else map[];
    var read := FromRecords(sha256, if d.chain.Some? then d.chain.value else [], now);
    Loaded(total, bal, if read.error.None? && read.blocks == [] then [Genesis(sha256, now)] else read.blocks, read.error)
  }

  /** Every block written by `to_dict` reads back as the same block. */
  lemma {:induction false} RecordsRoundTrip(sha256: string -> string, chain: seq<Block>, now: Time)
    ensures FromRecords(sha256, ToRecords(chain), now) == Read(chain, None)
    decreases |chain|
  {
    if chain != [] {
      var rs := ToRecords(chain);
      assert rs[1..] == ToRecords(chain[1..]);
      RecordsRoundTrip(sha256, chain[1..], now);
      assert [chain[0]] + chain[1..] == chain;
    }
  }

  /** `_load_from_dict(_to_dict())` gives back the supply, the balances and every
      block with its stored hash, and raises nothing, as long as the chain is
      not empty. */
  lemma DictRoundTrip(sha256: string -> string, totalSupply: int, balances: Balances, chain: seq<Block>, now: Time)
    requires chain != []
    ensures LoadState(sha256, ToDict(totalSupply, balances, chain), now) == Loaded(totalSupply, balances, chain, None)
  {
    RecordsRoundTrip(sha256, chain, now);
  }

  /** The choice `try_sync_merge` makes once it has a copy: more blocks win;
      with as many blocks, a meta time newer than the local file's mtime wins. */
  predicate UseSync(syncBlocks: nat, localBlocks: nat, syncTime: Time, localTime: Time) {
    syncBlocks > localBlocks || (syncBlocks == localBlocks && syncTime > localTime)
  }

  /** The choice is a strict preference: two copies never each win over the
      other, and neither wins over itself. */
  lemma UseSyncAsymmetric(a: nat, b: nat, s: Time, t: Time)
    ensures !(UseSync(a, b, s, t) && UseSync(b, a, t, s))
    ensures !UseSync(a, a, s, s)
  {
  }

  /** Adopting a copy never shortens the chain by the block count it reports. */
  lemma UseSyncNeverShorter(a: nat, b: nat, s: Time, t: Time)
    requires UseSync(a, b, s, t)
    ensures a >= b
  {
  }

  function MintMemo(total: int, n: int): string {
    "Mint " + IntStr(total) + " dibagi rata ke " + IntStr(n) + " user"
  }

  function TransferMemo(sender: Address, receiver: Address, amount: int): string {
    sender + " -> " + receiver + " : " + IntStr(amount)
  }

  class SAXVCoin {
    const maxSupply: int
    const sha256: string -> string
    var totalSupply: int
    var balances: Balances
    var chain: seq<Block>

    /** Every minted coin sits in some balance and the cap holds. */
    ghost predicate Books()
      reads this
    {
      totalSupply == Sum(balances) && totalSupply <= maxSupply
    }

    /** The candidate `add_block` tries at nonce `n`. */
    function Try(transactions: string, now: Time, n: nat): Block
      requires |chain| > 0
      reads this`chain
    {
      Candidate(sha256, |chain|, transactions, chain[|chain| - 1].hash, Fixed(now), n)
    }

    /** The hash `mine_reward` tests at nonce `n`. */
    function MineHash(miner: Address, reward: int, n: nat): string
      requires |chain| > 0
      reads this
    {
      sha256(MineText(|chain|, RewardMemo(reward, miner), chain[|chain| - 1].hash, n))
    }

    /** A fresh coin: no local data, so `create_genesis` runs at `now`. */
    constructor (maxSupply: int, sha256: string -> string, now: Time)
      ensures this.maxSupply == maxSupply && this.sha256 == sha256
      ensures totalSupply == 0 && balances == map[]
      ensures chain == [Genesis(sha256, now)]
      ensures ChainValid(sha256, chain)
      ensures maxSupply >= 0 ==> Books()
    {
      this.maxSupply := maxSupply;
      this.sha256 := sha256;
      totalSupply := 0;
      balances := map[];
      chain := [Genesis(sha256, now)];
    }

    /** `add_block`: a block numbered by the chain length and linked to the tip,
        created at `now`. With `skipPow` its hash is computed with the given
        nonce; otherwise the least nonce from 0 whose hash has the prefix is
        chosen. */
    method AddBlock(transactions: string, nonce: int, skipPow: bool, now: Time, ghost w: nat) returns (blk: Block)
      requires |chain| > 0
      requires !skipPow ==> HasZeros(Try(transactions, now, w).hash, Difficulty)
      modifies this
      ensures chain == old(chain) + [blk]
      ensures blk.index == |old(chain)| && blk.previousHash == old(chain)[|old(chain)| - 1].hash
      ensures blk.timestamp == now && blk.transactions == transactions
      ensures blk.hash == CalculateHash(sha256, blk)
      ensures skipPow ==> blk.nonce == nonce
      ensures !skipPow ==> && blk.nonce >= 0 && HasZeros(blk.hash, Difficulty)
                           && forall k :: 0 <= k < blk.nonce ==> !HasZeros(old(Try(transactions, now, k)).hash, Difficulty)
      ensures totalSupply == old(totalSupply) && balances == old(balances)
      ensures !skipPow && old(ChainValid(sha256, chain)) ==> ChainValid(sha256, chain)
    {
      var lastHash := chain[|chain| - 1].hash;
      var idx := |chain|;
      if !skipPow {
        blk := SearchNonce(sha256, idx, transactions, lastHash, Fixed(now), w);
        if ChainValid(sha256, chain) {
          ExtendValid(sha256, chain, blk);
        }
      } else {
        blk := NewBlock(sha256, idx, transactions, lastHash, now, nonce);
      }
      chain := chain + [blk];
    }

    /** `mint_equal`: once only (while the supply is not positive) and on a
        non-empty list, every listed user gains `max_supply // n` per listing
        and the supply becomes that times `n`; the block is added unmined. */
    method MintEqual(users: seq<Address>, now: Time) returns (ok: bool)
      requires |chain| > 0
      modifies this
      ensures ok <==> old(totalSupply) <= 0 && |users| > 0
      ensures !ok ==> totalSupply == old(totalSupply) && balances == old(balances) && chain == old(chain)
      ensures ok ==> && balances == AddEach(old(balances), users, maxSupply / |users|)
                     && totalSupply == (maxSupply / |users|) * |users| <= maxSupply
                     && chain == old(chain) + [NewBlock(sha256, |old(chain)|, MintMemo(totalSupply, |users|), old(chain)[|old(chain)| - 1].hash, now, 0)]
      ensures ok && old(Books()) && old(totalSupply) == 0 ==> Books()
    {
      if totalSupply > 0 {
        return false;
      }
      if |users| == 0 {
        return false;
      }
      var per := maxSupply / |users|;
      var updated := balances;
      var i := 0;
      while i < |users|
        invariant 0 <= i <= |users|
        invariant AddEach(updated, users[i..], per) == AddEach(balances, users, per)
      {
        assert users[i..][1..] == users[i + 1..];
        updated := updated[users[i] := Get(updated, users[i]) + per];
        i := i + 1;
      }
      assert users[|users|..] == [];
      AddEachSum(balances, users, per);
      SplitFits(maxSupply, |users|);
      balances := updated;
      totalSupply := per * |users|;
      var b := AddBlock(MintMemo(totalSupply, |users|), 0, true, now, 0);
      ok := true;
    }

    /** `transfer`: refused on an insufficient balance (0 if unknown) with nothing
        changed; an unknown sender passing the test raises `KeyError` unchanged;
        otherwise the amount moves and a mined block records it. */
    method Transfer(sender: Address, receiver: Address, amount: int, now: Time, ghost w: nat) returns (r: Outcome<bool>)
      requires |chain| > 0
      requires HasZeros(Try(TransferMemo(sender, receiver, amount), now, w).hash, Difficulty)
      modifies this
      ensures totalSupply == old(totalSupply)
      ensures Get(old(balances), sender) < amount ==>
                r == Returned(false) && balances == old(balances) && chain == old(chain)
      ensures Get(old(balances), sender) >= amount && sender !in old(balances) ==>
                r == Raised(KeyError) && balances == old(balances) && chain == old(chain)
      ensures Get(old(balances), sender) >= amount && sender in old(balances) ==>
                && r == Returned(true)
                && balances == Move(old(balances), sender, receiver, amount)
                && |chain| == |old(chain)| + 1 && chain[..|old(chain)|] == old(chain)
                && chain[|old(chain)|].transactions == TransferMemo(sender, receiver, amount)
                && (var b := chain[|old(chain)|];
                    && b.index == |old(chain)| && b.previousHash == old(chain)[|old(chain)| - 1].hash
                    && b.timestamp == now && b.hash == CalculateHash(sha256, b)
                    && b.nonce >= 0 && HasZeros(b.hash, Difficulty)
                    && forall k :: 0 <= k < b.nonce ==> !HasZeros(old(Try(TransferMemo(sender, receiver, amount), now, k)).hash, Difficulty))
      ensures old(Books()) ==> Books()
      ensures old(ChainValid(sha256, chain)) ==> ChainValid(sha256, chain)
    {
      if Get(balances, sender) < amount {
        return Returned(false);
      }
      if sender !in balances {
        return Raised(KeyError);
      }
      // The search reads only the chain, so mining before the move is the same block.
      var b := AddBlock(TransferMemo(sender, receiver, amount), 0, false, now, w);
      MoveSum(balances, sender, receiver, amount);
      balances := Move(balances, sender, receiver, amount);
      r := Returned(true);
    }

    /** `mine_reward`: refused past the cap; otherwise the least nonce whose mine
        text hashes to the prefix is found, the miner is credited, and a block
        carrying that searched hash (not `calculate_hash`) is appended. */
    method MineReward(miner: Address, reward: int, now: Time, ghost w: nat) returns (ok: bool)
      requires |chain| > 0
      requires HasZeros(MineHash(miner, reward, w), Difficulty)
      modifies this
      ensures ok <==> old(totalSupply) + reward <= maxSupply
      ensures !ok ==> totalSupply == old(totalSupply) && balances == old(balances) && chain == old(chain)
      ensures ok ==> && totalSupply == old(totalSupply) + reward
                     && balances == Credit(old(balances), miner, reward)
                     && |chain| == |old(chain)| + 1 && chain[..|old(chain)|] == old(chain)
                     && var b := chain[|old(chain)|];
                        && b.nonce >= 0
                        && b == RewardBlock(sha256, |old(chain)|, RewardMemo(reward, miner), old(chain)[|old(chain)| - 1].hash, now, b.nonce)
                        && HasZeros(b.hash, Difficulty)
                        && forall k :: 0 <= k < b.nonce ==> !HasZeros(old(MineHash(miner, reward, k)), Difficulty)
      ensures old(Books()) ==> Books()
    {
      if totalSupply + reward > maxSupply {
        return false;
      }
      var lastHash := chain[|chain| - 1].hash;
      var tx := RewardMemo(reward, miner);
      var nonce := SearchMineNonce(sha256, |chain|, tx, lastHash, w);
      CreditSum(balances, miner, reward);
      totalSupply := totalSupply + reward;
      balances := Credit(balances, miner, reward);
      chain := chain + [RewardBlock(sha256, |chain|, tx, lastHash, now, nonce)];
      ok := true;
    }

    /** `validate_chain` */
    method ValidateChain() returns (ok: bool)
      ensures ok == ChainValid(sha256, chain)
    {
      if |chain| == 0 {
        return false;
      }
      ok := CheckPowBlocks(sha256, chain);
    }

    /** `_load_from_dict`: supply and balances first, then the blocks one by one;
        a record without a nonce raises `TypeError` there, leaving what was read
        so far. An empty list ends in a fresh genesis block at `now`. */
    method LoadFromDict(d: Snapshot, now: Time) returns (err: Option<PyError>)
      modifies this
      ensures var l := LoadState(sha256, d, now);
              totalSupply == l.totalSupply && balances == l.balances && chain == l.chain && err == l.error
    {
      totalSupply := if d.totalSupply.Some? then d.totalSupply.value else 0;
      balances := if d.balances.Some? then d.balances.value else map[];
      var blocks;
      blocks, err := ReadRecords(sha256, if d.chain.Some? then d.chain.value else [], now);
      chain := if err.None? && blocks == [] then [Genesis(sha256, now)] else blocks;
    }

    /** `try_sync_merge`. `sync` is the parsed sync file (`None` when it is
        missing or unreadable), `metaUpdated` the meta file's `"updated"` value
        and `localMtime` the local file's mtime (`None` where those reads fail). */
    method TrySyncMerge(sync: Option<Snapshot>, metaUpdated: Option<Time>, localMtime: Option<Time>, now: Time)
        returns (merged: bool)
      modifies this
      ensures var use := sync.Some? && Truthy(sync.value) &&
                UseSync(SyncBlocks(sync.value), |old(chain)|,
                        if metaUpdated.Some? then metaUpdated.value else 0,
                        if localMtime.Some? then localMtime.value else 0);
              && (!use ==> !merged && totalSupply == old(totalSupply) && balances == old(balances) && chain == old(chain))
              && (use ==> var l := LoadState(sha256, sync.value, now);
                          && totalSupply == l.totalSupply && balances == l.balances && chain == l.chain
                          && merged == l.error.None?)
    {
      if sync.None? || !Truthy(sync.value) {
        return false;
      }
      var d := sync.value;
      var localBlocks := |chain|;
      var syncBlocks := SyncBlocks(d);
      var syncTime := if metaUpdated.Some? then metaUpdated.value else 0;
      var localTime := if localMtime.Some? then localMtime.value else 0;
      if UseSync(syncBlocks, localBlocks, syncTime, localTime) {
        var err := LoadFromDict(d, now);
        return err.None?;
      }
      return false;
    }
  }

  /** The loop of `_load_from_dict` over the records, stopping at the first
      that raises. */
  method ReadRecords(sha256: string -> string, records: seq<BlockRecord>, now: Time) returns (blocks: seq<Block>, err: Option<PyError>)
    ensures Read(blocks, err) == FromRecords(sha256, records, now)
  {
    blocks := [];
    var i := 0;
    assert records[0..] == records;
    while i < |records|
      invariant 0 <= i <= |records|
      invariant FromRecords(sha256, records, now).blocks == blocks + FromRecords(sha256, records[i..], now).blocks
      invariant FromRecords(sha256, records, now).error == FromRecords(sha256, records[i..], now).error
    {
      assert records[i..][0] == records[i];
      assert records[i..][1..] == records[i + 1..];
      var o := FromRecord(sha256, records[i], now);
      if o.Raised? {
        assert FromRecords(sha256, records[i..], now) == Read([], Some(o.error));
        assert blocks + [] == blocks;
        return blocks, Some(o.error);
      }
      var b := o.value;
      ghost var rest := FromRecords(sha256, records[i + 1..], now);
      assert FromRecords(sha256, records[i..], now) == Read([b] + rest.blocks, rest.error);
      assert blocks + ([b] + rest.blocks) == (blocks + [b]) + rest.blocks;
      blocks := blocks + [b];
      i := i + 1;
    }
    assert records[|records|..] == [];
    err := None;
  }

  /** `len(sync_data.get("chain", []))` */
  function SyncBlocks(d: Snapshot): nat {
    if d.chain.Some? then |d.chain.value| else 0
  }
}
