# SAXV chain: a verified model of the toy ledgers

The saxv-chain-project scripts are some twenty-five near-copies of one toy
cryptocurrency. This project models the recurring kernels of those scripts in
Dafny and proves what each operation does to the ledger, the pending pool and
the block list.

There are three kernels:

1. **Supply-capped coin books with a hash-linked block list.** These are
   saxv_coin_v1 to v3, v3lite, v4lite_sync and saxv_v5_nogui.
   - `mint`, `transfer`, `mine_reward` and the equal distributions update a
     balances dictionary and a `total_supply` under `max_supply`.
   - Each operation appends one block that names the tip's hash.
   - `validate_chain` walks the list.
   - `repair_chain` re-mines and relinks.
   - The v4lite file adds the sync-merge decision and the dictionary round trip.
2. **Dictionary-block chains with the proof puzzle.** These are saxv_chain_v2,
   v3, v4_gui and mini_v6, and saxv_coin_v6, v7, v8 and v11.
   - `new_block`/`create_block` drain the pending pool.
   - Admission is gated on signatures, with the reward sender `"0"` exempt.
   - `proof_of_work` is a least-solution search.
   - `valid_chain` walks the chain.
   - Longest-chain replacement runs over the peers' replies.
3. **Object-block chains with a pending pool.** These are saxv_chain_mini_v5,
   mini_v7 and its two variants, v8_auto_sync, mini_v8 to v15 and
   mini_v15_final_hp.
   - Blocks are hashed as `json.dumps(self.__dict__)`.
   - A nonce loop runs until the hash has the prefix.
   - Batches of 3, 5 or 20 are taken from the front of the pool.
   - The pool has a drop-oldest cap of 10.

## Modules

| module | file | models |
|---|---|---|
| `Wrappers` | wrappers.dfy | `Option`, and `Outcome` for a value returned or a Python exception raised |
| `Text` | text.dfy | decimal rendering of integers, the zero-prefix test, `bytes.fromhex` / `.hex()` |
| `Ledger` | ledger.dfy | the balances dictionary: credit, move, the equal splits, and the sum of all balances |
| `CoinV1`, `CoinV2` | coin_v1.dfy, coin_v2.dfy | saxv_coin_v1 and saxv_coin_v2, one module per file |
| `PipeBlocks` | pipe_blocks.dfy | the `index\|timestamp\|tx\|prev\|nonce` blocks of v3 to v5: nonce search, the reward block of `mine_reward`, the prefix walk |
| `CoinV3`, `CoinV3Lite`, `CoinV4Lite`, `CoinV5` | coin_v3.dfy … coin_v5.dfy | saxv_coin_v3, saxv_coin_v3lite, saxv_coin_v4lite_sync, saxv_v5_nogui |
| `Signatures` | signatures.dfy | `verify_signature`, `verify_transaction`, `verify_tx` |
| `DictBlocks` | dict_blocks.dfy | the dictionary block, `valid_proof`, `valid_chain`, `proof_of_work`, and the longest-chain choice |
| `ProofChain` | proof_chain.dfy | `Blockchain` of saxv_chain_v2, v3 and v4_gui, and their `mine` |
| `MiniV6` | mini_v6.dfy | saxv_chain_mini_v6 |
| `SquareChain` | square_chain.dfy | saxv_coin_v6, v7, v8 and v11 |
| `ObjectBlocks`, `Mempool` | object_blocks.dfy, mempool.dfy | the `__dict__`-hashed blocks (object_blocks.dfy) and the pool slices (mempool.dfy) |
| `MiniV5`, `MiniV7`, `AutoSync`, `MiniBatch`, `MiniHp` | mini_v5.dfy … mini_hp.dfy | saxv_chain_mini_v5; mini_v7 and variants; v8_auto_sync; mini_v8 to v15; mini_v15_final_hp |

The model treats these as parameters:
- **Hash functions.** SHA-256, SHA3-512 and Python's `hash` are uninterpreted
  functions passed in.
  - In the pipe-text coins they apply to text.
  - In the dictionary chains they apply to a block (its sorted-key JSON).
  - In the object chains they apply to the attribute record.
- **Signatures.** The ECDSA curve is a pair of uninterpreted predicates.
- **The clock.** Each operation takes one reading, `now`.
- **The peers.** Their replies are an input sequence.

Every unbounded search (a nonce or proof loop) takes a ghost witness that
solves the puzzle. Its result is then proved to solve it and to be the least
solution. Python exceptions that escape are modelled as
`Raised(KeyError | ValueError | TypeError | IndexError | …)`.

The `__dict__` quirk is modelled as written:
- `__init__` hashes the attributes before `hash` exists.
- Every later `compute_hash()` hashes a record that contains the stored hash.
- For that reason the self-hash check of `is_chain_valid` in mini_v8 to v15
  passes a mined block only through a digest collision
  (`MiniBatch.MinedBlockPassesOnlyByCollision`).

The same holds for the v4lite and v5 `mine_reward` block: its stored hash is
the digest of a timestamp-free text, so `validate_chain` can recompute it only
by collision (`PipeBlocks.RewardBlockRecheckNeedsCollision`). These are stated
as lemmas about the code as written.

## Model

| member | source | states |
|---|---|---|
| Ledger.Credit | saxv_coin_v1.py:41 | the credited address is a key afterwards and gains exactly the amount (starting from 0 when absent); every other balance is unchanged |
| Ledger.CreditSum | saxv_coin_v1.py:40-41 | a credit raises the sum of all balances by exactly the amount, which is why `total_supply` keeps up with the balances |
| Ledger.Move | saxv_coin_v1.py:49-50 | a transfer debits the sender and credits the receiver by the amount and changes no one else; from an address to itself it changes nothing |
| Ledger.MoveSum | saxv_coin_v1.py:49-50 | a transfer preserves the sum of all balances, also when sender and receiver coincide |
| Ledger.SumUpdate | saxv_coin_v3lite.py:63 | overwriting one balance changes the sum by the new value minus the old one |
| Ledger.AddEachGet | saxv_v5_nogui.py:84-86 | after the equal split every wallet has gained `per` once for each time it is listed, and nobody else changed |
| Ledger.AddEachSum | saxv_v5_nogui.py:84-88 | the equal split adds `per * len(wallets)` to the sum of balances, matching the new `total_supply` |
| Ledger.SplitFits | saxv_coin_v3lite.py:61-64 | the floor split `per * n` never exceeds the supply and falls less than one coin per user short of it (also saxv_coin_v4lite_sync.py:98-101, saxv_v5_nogui.py:84-88) |
| Ledger.SetEachGet | saxv_coin_v3lite.py:62-63 | after the overwrite every listed user holds exactly `per_user`, whatever they held, and nobody else changed |
| Ledger.SetEachSum | saxv_coin_v3lite.py:62-64 | over distinct users who held nothing, the overwrite adds `per_user * n` to the sum, so `total_supply` equals the sum of balances |
| Ledger.SetEachSumListed | saxv_coin_v3lite.py:62-63 | for any list, repeated names included, the sum after the overwrite is the unlisted balances plus `per_user` once per distinct listed user |
| Ledger.ListedSize | saxv_coin_v3lite.py:62-63 | a list has no more distinct names than entries, and fewer once a name repeats |
| Ledger.SetEachDuplicate | saxv_coin_v3lite.py:61-64 | with `per_user > 0`, any list naming a user twice leaves the sum of balances strictly below the `per_user * n` written to `total_supply` |
| CoinV1.SAXVCoin.constructor | saxv_coin_v1.py:10-13 | a coin without a data file starts with supply 0 and no balances, and its books hold |
| CoinV1.SAXVCoin.Mint | saxv_coin_v1.py:36-41 | `mint` changes nothing when it would pass the cap; otherwise supply and the address's balance grow by the amount; supply = sum of balances <= cap is kept |
| CoinV1.SAXVCoin.Transfer | saxv_coin_v1.py:45-50 | `transfer` changes nothing when the sender holds less than the amount (0 when unknown); an unknown sender that passes raises `KeyError`; otherwise the balances are the moved ones; the sum and the books are kept |
| CoinV2.NewBlock | saxv_coin_v2.py:10-20 | a new block carries its fields and the hash of index, timestamp, transactions and previous hash, with no nonce |
| CoinV2.AppendLinked | saxv_coin_v2.py:41-44 | appending the block `add_block` builds keeps every block numbered by position, self-hashed and linked to its predecessor |
| CoinV2.SAXVCoin.constructor | saxv_coin_v2.py:24-35 | a coin without a data file holds only the genesis block (index 0, "Genesis Block", previous hash "0") (also saxv_coin_v2.py:105-106) |
| CoinV2.SAXVCoin.AddBlock | saxv_coin_v2.py:41-44 | `add_block` appends exactly one block numbered by the old length and linked to the old tip; earlier blocks and the balances are unchanged |
| CoinV2.SAXVCoin.Mint | saxv_coin_v2.py:49-55 | `mint` over the cap changes neither balances, supply nor chain; otherwise one credit and exactly one new block; the books and the links are kept |
| CoinV2.SAXVCoin.Transfer | saxv_coin_v2.py:58-64 | `transfer` with too small a balance changes nothing and appends no block; an unknown sender that passes raises `KeyError`; otherwise the moved balances and exactly one block |
| CoinV2.SAXVCoin.MineBlock | saxv_coin_v2.py:68-76 | `mine_block` credits 1 and appends one block only if the supply stays within the cap; otherwise the state is unchanged |
| PipeBlocks.NewBlock | saxv_coin_v3.py:12-24 | a block built without a stored hash carries its fields and the SHA-256 of `index|timestamp|transactions|previous_hash|nonce` |
| PipeBlocks.SearchNonce | saxv_coin_v3.py:60-70 | the nonce loop returns the candidate at the least nonce from 0 whose hash has the `DIFFICULTY` prefix; every smaller nonce fails |
| PipeBlocks.TextsDiffer | saxv_coin_v3.py:23 | two hashed texts that differ in the previous hash are different texts |
| PipeBlocks.SearchMineNonce | saxv_coin_v4lite_sync.py:125-139 | the `mine_reward` loop returns the least nonce whose timestamp-free text `idx|tx|prev|nonce` hashes to the prefix |
| PipeBlocks.RewardBlock | saxv_coin_v4lite_sync.py:133-134 | the reward block carries its fields but, as its hash, the searched digest of the timestamp-free text |
| PipeBlocks.MineTextIsNotBlockText | saxv_coin_v4lite_sync.py:28 | the searched text is shorter than the validated text by the timestamp and one separator, so the two never coincide (also saxv_coin_v4lite_sync.py:127) |
| PipeBlocks.RewardBlockRecheckNeedsCollision | saxv_coin_v4lite_sync.py:133-134 | a reward block passes the validator's recomputed-hash test only if SHA-256 maps two different texts to one digest (also saxv_coin_v4lite_sync.py:151) |
| PipeBlocks.CheckPowBlocks | saxv_coin_v4lite_sync.py:145-158 | the validator loop answers true exactly when every block from 1 on links to its predecessor, recomputes to its stored hash, and has the prefix unless its own index is 0 |
| CoinV3.ExtendValid | saxv_coin_v3.py:60-70 | appending a mined block linked to the tip keeps a valid chain valid (also saxv_coin_v3.py:120-135) |
| CoinV3.RepairOne | saxv_coin_v3.py:147-161 | one block is left alone exactly when its hash recomputes and has the prefix; otherwise it is replaced by its re-mined copy with the least passing nonce |
| CoinV3.RemineAll | saxv_coin_v3.py:145-161 | the first repair loop repairs exactly the blocks that fail, and `repaired` is true iff some block failed |
| CoinV3.Relink | saxv_coin_v3.py:164-165 | the relinking loop sets each previous hash from block 1 on to the hash of the block before and changes nothing else |
| CoinV3.RepairedChainValidNeedsCollision | saxv_coin_v3.py:155-165 | because relinking recomputes no hash, a repaired chain whose relinked block still validates needs a SHA-256 collision between two different texts |
| CoinV3.SAXVCoin.constructor | saxv_coin_v3.py:37-49 | a coin without a data file holds only the genesis block, which makes a valid chain (also saxv_coin_v3.py:206) |
| CoinV3.SAXVCoin.MineNewBlock | saxv_coin_v3.py:60-70 | the appended block has index `last.index + 1`, links to `last.hash`, has the prefix and the least passing nonce, each try stamped by the clock; validity is kept |
| CoinV3.SAXVCoin.Mint | saxv_coin_v3.py:76-87 | `mint` is refused past the cap with nothing changed; otherwise the credit and one appended block with the memo, index `last.index + 1`, the tip's hash as previous hash, the prefix and the least passing nonce under the per-try clock; supply = sum <= cap, and a valid chain stays valid |
| CoinV3.SAXVCoin.Transfer | saxv_coin_v3.py:89-100 | `transfer` is refused on an insufficient balance with nothing changed; an unknown sender that passes raises `KeyError`; otherwise the move and one appended block with the memo, index `last.index + 1`, the tip's hash as previous hash, the prefix and the least passing nonce under the per-try clock |
| CoinV3.SAXVCoin.MineReward | saxv_coin_v3.py:102-113 | `mine_reward` is refused past the cap with nothing changed; otherwise the miner's credit and one appended block with the memo, index `last.index + 1`, the tip's hash as previous hash, the prefix and the least passing nonce under the per-try clock; the books are kept |
| CoinV3.SAXVCoin.ValidateChain | saxv_coin_v3.py:116-137 | false on an empty chain; otherwise true iff every block from 1 on links, recomputes to its hash and has the prefix |
| CoinV3.SAXVCoin.RepairChain | saxv_coin_v3.py:139-170 | false and untouched on an empty chain or when no block fails; otherwise true, with the failing blocks re-mined and every block from 1 on relinked, hashes not recomputed |
| CoinV3Lite.NewBlock | saxv_coin_v3lite.py:12-23 | a block carries its fields and the SHA-256 of the five fields run together |
| CoinV3Lite.SearchNonce | saxv_coin_v3lite.py:88-100 | the `mine_block` loop returns the least nonce whose text (chain length, memo, tip hash, nonce; no timestamp) hashes to the prefix |
| CoinV3Lite.ExtendValid | saxv_coin_v3lite.py:44-47 | appending a block computed from its own fields and linked to the tip keeps the chain valid (also saxv_coin_v3lite.py:103-114) |
| CoinV3Lite.SAXVCoin.constructor | saxv_coin_v3lite.py:27-37 | a coin without a data file holds only the genesis block; the chain is valid |
| CoinV3Lite.SAXVCoin.AddBlock | saxv_coin_v3lite.py:44-47 | `add_block` appends one block numbered by the old length and linked to the tip, with no proof-of-work requirement |
| CoinV3Lite.SAXVCoin.MintEqual | saxv_coin_v3lite.py:52-65 | nothing happens once the supply is positive or on an empty list; otherwise every listed balance is overwritten with `max_supply // n`, the supply becomes `per_user * n <= max_supply`, and one block is appended |
| CoinV3Lite.SAXVCoin.Transfer | saxv_coin_v3lite.py:69-75 | refused on an insufficient balance with nothing changed; an unknown sender that passes raises `KeyError`; otherwise exactly `amount` moves and one block is appended |
| CoinV3Lite.SAXVCoin.MineBlock | saxv_coin_v3lite.py:80-100 | within the cap the miner gains 1 and the appended block has the least passing nonce, yet stores `calculate_hash` of its own fields (with timestamp) rather than the searched hash; past the cap nothing changes |
| CoinV3Lite.SAXVCoin.ValidateChain | saxv_coin_v3lite.py:103-114 | true iff every block from 1 on links and recomputes to its hash; there is no prefix test, and the empty chain passes |
| CoinV4Lite.ExtendValid | saxv_coin_v4lite_sync.py:68-86 | a mined block linked to the tip that carries its own hash with the prefix keeps a valid chain valid (also saxv_coin_v4lite_sync.py:142-158) |
| CoinV4Lite.UnminedBlockNeedsLuckyHash | saxv_coin_v4lite_sync.py:102 | the unmined `mint_equal` block (index >= 1) lets the chain validate only if its hash happens to have the prefix (also saxv_coin_v4lite_sync.py:154) |
| CoinV4Lite.MakeBlock | saxv_coin_v4lite_sync.py:18-25 | a `hash_value` other than `None` is stored as given; otherwise the hash is computed from the fields |
| CoinV4Lite.ToRecords | saxv_coin_v4lite_sync.py:31-39 | the `"chain"` list has one record per block, in order, each the block's `to_dict` (also saxv_coin_v4lite_sync.py:261) |
| CoinV4Lite.RecordsRoundTrip | saxv_coin_v4lite_sync.py:261 | every record written by `to_dict` reads back as the same block, stored hash included, and nothing raises (also saxv_coin_v4lite_sync.py:268-271) |
| CoinV4Lite.DictRoundTrip | saxv_coin_v4lite_sync.py:257-271 | `_load_from_dict(_to_dict())` restores the supply, the balances and every block of a non-empty chain, and raises nothing |
| CoinV4Lite.UseSyncAsymmetric | saxv_coin_v4lite_sync.py:223-240 | the sync preference is strict: two copies never each win over the other, and no copy wins over itself |
| CoinV4Lite.UseSyncNeverShorter | saxv_coin_v4lite_sync.py:224-240 | an adopted copy never has fewer blocks than the local chain |
| CoinV4Lite.SAXVCoin.constructor | saxv_coin_v4lite_sync.py:42-46 | a coin without local data holds only the genesis block; the chain is valid (also saxv_coin_v4lite_sync.py:58-61, saxv_coin_v4lite_sync.py:198) |
| CoinV4Lite.SAXVCoin.AddBlock | saxv_coin_v4lite_sync.py:68-86 | the block has index `len(chain)`, links to the tip and stores `calculate_hash`; without `skip_pow` it has the prefix and the least passing nonce, and validity is kept; with `skip_pow` its nonce is the given one and no prefix is required |
| CoinV4Lite.SAXVCoin.MintEqual | saxv_coin_v4lite_sync.py:91-104 | true iff the supply is not positive and the list is not empty; then each user gains `max_supply // n` per listing, the supply becomes `per * n <= max_supply`, and one unmined block is appended; otherwise nothing changes |
| CoinV4Lite.SAXVCoin.Transfer | saxv_coin_v4lite_sync.py:106-115 | refused on an insufficient balance with nothing changed; an unknown sender that passes raises `KeyError`; otherwise the move and one appended block with the memo at index `len(chain)`, linked to the tip, stamped `now`, storing `calculate_hash`, with the prefix and the least passing nonce; books kept and a valid chain stays valid |
| CoinV4Lite.SAXVCoin.MineReward | saxv_coin_v4lite_sync.py:117-139 | refused past the cap with nothing changed; otherwise the miner's credit and a block whose stored hash is the least passing digest of the timestamp-free text |
| CoinV4Lite.SAXVCoin.ValidateChain | saxv_coin_v4lite_sync.py:142-158 | false on an empty chain; otherwise true iff every block from 1 on links, recomputes to its hash, and has the prefix unless its index is 0 |
| CoinV4Lite.SAXVCoin.LoadFromDict | saxv_coin_v4lite_sync.py:264-274 | supply and balances are taken over (0 and empty when absent), then the blocks in order; a record without an index or a nonce raises `TypeError` with the blocks read so far kept; an empty list gives a fresh genesis block |
| CoinV4Lite.SAXVCoin.TrySyncMerge | saxv_coin_v4lite_sync.py:214-255 | a missing or empty copy changes nothing; the copy is adopted iff it has more blocks, or as many and a newer meta time than the local mtime (0 when unreadable); otherwise the state is unchanged; the answer is true iff the load raised nothing |
| CoinV4Lite.ReadRecords | saxv_coin_v4lite_sync.py:268-271 | the loading loop appends the blocks in order and stops at the first record that raises |
| CoinV5.ExtendValid | saxv_v5_nogui.py:58-72 | a block linked to the tip that carries its own hash with the prefix keeps a valid chain valid (also saxv_v5_nogui.py:131-145) |
| CoinV5.MakeBlock | saxv_v5_nogui.py:15-21 | a truthy `hash_value` is stored as given; `None` or `""` makes the block compute its hash |
| CoinV5.EmptyHashRecomputed | saxv_v5_nogui.py:21 | a record with an empty stored hash reads back exactly as one without a hash: with the block's own computed hash (also saxv_v5_nogui.py:166-167) |
| CoinV5.SAXV.constructor | saxv_v5_nogui.py:39-52 | with no data file the coin holds only the genesis block, supply 0 and no balances; the chain is valid (also saxv_v5_nogui.py:172-173) |
| CoinV5.SAXV.AddBlock | saxv_v5_nogui.py:58-74 | the block has index `len(chain)`, links to the tip and stores its calculated hash; without `skip_pow` it has the prefix and the least passing nonce and validity is kept; with `skip_pow` nonce 0 |
| CoinV5.SAXV.DistributeEqual | saxv_v5_nogui.py:77-91 | true iff the supply is not positive and the wallet list is not empty; then each wallet gains `max_supply // n` per listing, the supply becomes `per * n` less than `n` short of the cap, one unmined mint block is appended; otherwise nothing changes |
| CoinV5.SAXV.Transfer | saxv_v5_nogui.py:93-102 | refused on an insufficient balance (0 when unknown) with nothing changed; an unknown sender that passes raises `KeyError`; otherwise the move and one appended block with the memo at index `len(chain)`, linked to the tip, stamped `now`, storing its calculated hash, with the prefix and the least passing nonce; the total is kept and a valid chain stays valid |
| CoinV5.SAXV.MineReward | saxv_v5_nogui.py:104-129 | true iff the reward fits under the cap; then the supply and the miner's balance rise by it and one block is appended carrying the least passing hash of the timestamp-free mine text; otherwise nothing changes |
| CoinV5.SAXV.Validate | saxv_v5_nogui.py:131-145 | true iff every block from 1 on links to its predecessor, recomputes to its hash, and has the prefix unless its index is 0 |
| Signatures.VerifySignature | saxv_chain_v3.py:20-28 | `True` iff both hex strings decode, the key is a curve point and the curve accepts; `False` iff all that holds but the curve rejects; a hex error raises `ValueError`, a key off the curve a library error (also saxv_chain_v2.py:18-26, saxv_chain_v4_gui.py:21-29) |
| Signatures.HexEncodedVerifies | saxv_chain_v3.py:16-28 | a key and a signature written out with `.hex()` decode back exactly, so the answer is the curve's own verdict |
| Signatures.VerifyTransaction | saxv_chain_mini_v7.py:62-71 | raises exactly when a key is missing or the signature is not hex (`ValueError` then); `True` iff the sender decodes to a curve point and the curve accepts the message (also saxv_chain_mini_v7_pseudo_multinode.py:61-70, saxv_chain_mini_v7_gui.py:64-73) |
| Signatures.BadSenderHexIsFalse | saxv_chain_mini_v7.py:64-71 | a sender that is not hex is `False` in `verify_transaction` but raises `ValueError` in `verify_signature` (also saxv_chain_v3.py:22-28) |
| Signatures.VerifyTx | v8_auto_sync.py:42-48 | never raises; `True` exactly when the mini v7 check returns `True` |
| DictBlocks.ValidChain | saxv_chain_v3.py:42-58 | an empty chain raises `IndexError`; otherwise true iff every block from 1 on names the hash of its predecessor and solves the puzzle over its proof |
| DictBlocks.ProofOfWork | saxv_chain_v3.py:118-128 | the least proof counting up from 0 whose hash over `last_proof` has the zero prefix |
| DictBlocks.PickLongest | saxv_chain_v3.py:60-81 | starting from no candidate, nothing is adopted iff no reply qualifies; otherwise the chain of a qualifying reply with the greatest reported length, the earliest among ties |
| DictBlocks.PickFindsBest | saxv_chain_v3.py:65-75 | the loop over the replies keeps its candidate when no later reply qualifies, and otherwise ends on the best qualifying later reply |
| DictBlocks.HonestPickIsLonger | saxv_chain_v3.py:63 | when every peer reports the length of the chain it sends, an adopted chain is longer than the local one (also saxv_chain_v3.py:71) |
| DictBlocks.ReportedLengthIsTrusted | saxv_chain_v3.py:69-73 | only the reported length is compared: a lone peer reporting more blocks than the local length is adopted with any non-empty valid chain, even one no longer than the local chain |
| DictBlocks.SelectAgreesWithPick | saxv_chain_v3.py:65-75 | when the raising loop returns, it has chosen what the skipping choice chooses |
| DictBlocks.SelectRaisesOnlyOnMalformed | saxv_chain_v3.py:68-74 | when every 200 reply has both keys and a non-empty chain, the loop does not raise (also saxv_chain_v3.py:43) |
| ProofChain.Blockchain.constructor | saxv_chain_v3.py:32-36 | the chain is the genesis block with index 1, proof 100, previous hash `'1'` and no transactions; the pool is empty; the chain is valid (also saxv_chain_v2.py:30-33) |
| ProofChain.Blockchain.NewBlock | saxv_chain_v3.py:83-93 | the block is numbered one past the chain length, holds the whole pool, links to the truthy given hash or else to the tip's hash; it is appended and the pool emptied; a linked block with a solving proof keeps the chain valid (also saxv_chain_v2.py:35-45) |
| ProofChain.Blockchain.NewTransaction | saxv_chain_v3.py:95-107 | the reward sender is admitted unchecked, others iff the signature check returns `True`; admission appends and answers the tip's index plus one; a `False` changes nothing; an error escapes with nothing changed (also saxv_chain_v2.py:47-60) |
| ProofChain.Blockchain.Mine | saxv_chain_v3.py:138-150 | one block is appended with the least proof solving the tip's puzzle, linked to the tip, holding the pool followed by the reward of 1 to the node; the pool is emptied and validity kept (also saxv_chain_v4_gui.py:97-105) |
| ProofChain.Blockchain.ResolveConflicts | saxv_chain_v3.py:60-81 | the outcome of the loop over the peers: an escaping error, or `False` with the chain kept, or `True` with the chosen chain adopted; the pool is never touched |
| ProofChain.ResolveAdoptsLongest | saxv_chain_v3.py:60-81 | a conflict resolution that returns adopts the longest valid chain on offer beating the local length, earliest among ties, and adopts nothing iff none qualifies |
| MiniV6.SAXVChain.constructor | saxv_chain_mini_v6.py:39-54 | a node without a chain file holds the genesis block with index 1, proof 100 and previous hash `'1'`, an empty pool and no peers |
| MiniV6.SAXVChain.NewBlock | saxv_chain_mini_v6.py:74-90 | the block holds the first `MAX_TX_BATCH` pending and the pool keeps exactly the rest; its link is `'1'` on an empty chain, else the truthy given hash, else the tip's hash; it is appended |
| MiniV6.SAXVChain.NewTransaction | saxv_chain_mini_v6.py:92-104 | the timestamped transaction is appended and the answer is one past the tip's index, or 1 on an empty chain |
| MiniV6.SAXVChain.ResolveConflicts | saxv_chain_mini_v6.py:168-195 | the chain is replaced iff some reply qualifies, by the longest qualifying chain, earliest among ties; failing peers are skipped; the pool and the peers are kept |
| MiniV6.SAXVChain.Mine | saxv_chain_mini_v6.py:212-225 | after consensus, one block linked to the adopted tip with the least proof over its proof; the reward of 1 to the node is queued behind the pending, and lands in the block iff fewer than `MAX_TX_BATCH` were pending |
| SquareChain.IsChainValid | saxv_coin_v8.py:59-75 | an empty chain raises `IndexError`; otherwise true iff every block from 1 on names its predecessor's hash and `proof**2 - previous_proof**2` hashes to four zeros (also saxv_coin_v6.py:52-66) |
| SquareChain.ProofOfWork | saxv_coin_v6.py:37-46 | the least proof counting up from 1 that solves the square puzzle over the previous proof |
| SquareChain.SyncedIsLocalOrValid | saxv_coin_v8.py:134-145 | a sync round ends on the local chain or on a non-empty valid peer chain |
| SquareChain.HonestSyncNeverShorter | saxv_coin_v8.py:140-143 | with peers that report the length they send, syncing never shortens the chain |
| SquareChain.SyncTrustsReportedLength | saxv_coin_v8.py:140-143 | only the reported length is compared: one block reported as 5 replaces a chain of 2 |
| SquareChain.PeerStatus | saxv_coin_v11.py:131-142 | a peer is `'online'` exactly when it answered 200 and its body was read without raising, else `'offline'` |
| SquareChain.Answers | saxv_coin_v11.py:130-135 | the answers of the peers, in their order |
| SquareChain.Blockchain.constructor | saxv_coin_v6.py:17-20 | the genesis block with index 1, proof 1 and previous hash `'0'`; an empty pool |
| SquareChain.Blockchain.CreateBlock | saxv_coin_v6.py:22-32 | the block is numbered one past the chain length, holds the whole pool, and is appended; the pool is emptied; a linked block with a solving proof keeps the chain valid |
| SquareChain.Blockchain.AddTransaction | saxv_coin_v6.py:68-75 | the transaction is appended and the answer is one past the tip's index |
| SquareChain.Blockchain.IsOwnChainValid | saxv_coin_v6.py:52-66 | the validity of the node's own chain, raising on an empty one (also saxv_coin_v8.py:59-61) |
| SquareChain.Wallet.constructor | saxv_coin_v6.py:81-84 | the node wallet opens with the whole supply |
| SquareChain.NodeStatus.constructor | saxv_coin_v11.py:85 | no peer has a status yet |
| SquareChain.Forge | saxv_coin_v6.py:89-96 | one block linked to the tip with the least square proof over its proof, holding the pool followed by the `"SYSTEM"` reward of 10; the pool is emptied and validity kept |
| SquareChain.MineBlock | saxv_coin_v8.py:92-99 | forging as above, and the wallet gains exactly `MINING_REWARD` (also saxv_coin_v7.py:91-98, saxv_coin_v11.py:93-100) |
| SquareChain.SendSaxv | saxv_coin_v6.py:105-112 | true iff the balance covers the amount; then the transaction is queued and exactly the amount debited, leaving a non-negative balance; otherwise nothing changes (also saxv_coin_v7.py:102-114, saxv_coin_v11.py:177-188) |
| SquareChain.AutoTransaction | saxv_coin_v11.py:153-156 | 50 to the fixed receiver when the balance allows, else nothing; a non-negative balance stays non-negative |
| SquareChain.SyncChain | saxv_coin_v8.py:134-145 | the chain ends as the round over the peers in order leaves it; pending transactions are untouched |
| SquareChain.SyncChainWithStatus | saxv_coin_v11.py:128-143 | the chain as in the v8 round, and each peer marked as its answer says, later marks overriding earlier ones |
| Text.SliceTestIsPrefixTest | saxv_chain_v3.py:128 | the slice test `h[:d] == "0" * d` and the prefix test `h.startswith("0" * d)` agree (also saxv_chain_mini_v7.py:55) |
| Text.FromHexToHex | saxv_chain_v3.py:16-25 | `bytes.fromhex` reads back exactly what `.hex()` writes |
| ObjectBlocks.Attrs | saxv_chain_mini_v7.py:22-24 | the attributes hashed by `compute_hash()` on a constructed block include its stored hash |
| ObjectBlocks.Construct | saxv_chain_mini_v7.py:14-20 | a constructed block keeps its fields, and its hash is the digest of the attributes before `hash` exists (also saxv_chain_mini_v8.py:11-22) |
| ObjectBlocks.Candidate | saxv_chain_mini_v7.py:55-57 | after `n` rounds of the nonce loop only the nonce has changed among the fields, raised by `n` |
| ObjectBlocks.MineNonce | saxv_chain_mini_v7.py:55-57 | the loop stops at the first round whose hash has the prefix: that round, and no earlier one, passes (also v8_auto_sync.py:34-36) |
| ObjectBlocks.CandidateHashesPrevious | saxv_chain_mini_v7.py:20-24 | every round's hash is the digest of attributes that contain the previous round's hash (also saxv_chain_mini_v7.py:56-57) |
| ObjectBlocks.ConstructedPassesOnlyByCollision | saxv_chain_mini_v8.py:11-22 | a block fresh from the constructor passes the hash check only if two different attribute records collide (also saxv_chain_mini_v8.py:54) |
| ObjectBlocks.RehashedPassesOnlyByCollision | saxv_chain_mini_v8.py:45 | a block rehashed once passes the hash check only if its attributes before and after the rehash collide, and those differ unless it was already self-hashed (also saxv_chain_mini_v8.py:54) |
| ObjectBlocks.RehashFixesSelfHashed | saxv_chain_mini_v8.py:45 | rehashing a block that passes the hash check changes nothing (also saxv_chain_mini_v8.py:54) |
| ObjectBlocks.LinkedExtend | saxv_chain_mini_v7.py:50-58 | a block that follows the tip's index, names the tip's hash and has the prefix keeps the chain linked |
| Mempool.Batch | saxv_chain_mini_v8.py:43 | `pool[:n]` is the first `min(n, len(pool))` entries of the pool (also v8_auto_sync.py:32, saxv_chain_mini_v15.py:46) |
| Mempool.Rest | saxv_chain_mini_v8.py:47 | `pool[n:]` keeps all but the first `n` entries (also v8_auto_sync.py:38, saxv_chain_mini_v15.py:53) |
| Mempool.BatchThenRest | saxv_chain_mini_v8.py:43-47 | the batch followed by what stays is the pool: nothing lost, duplicated or reordered (also saxv_chain_mini_v6.py:81, saxv_chain_mini_v8.py:88) |
| Mempool.SmallPoolDrains | saxv_chain_mini_v15.py:46 | a pool no longer than the batch goes into the block whole and leaves the pool empty (also saxv_chain_mini_v15.py:53) |
| Mempool.Newest | saxv_chain_mini_v15.py:39-40 | the capped pool has at most 10 entries |
| Mempool.NewestIsTail | saxv_chain_mini_v15.py:39-40 | the capped pool is the tail of the pool, in order, and a pool of at most 10 is kept whole (also saxv_chain_mini_v13.py:36-39) |
| Mempool.AdmitToFullDropsOldest | saxv_chain_mini_v15.py:37-40 | admitting to a full pool of ten drops exactly its oldest entry |
| MiniV5.Blockchain.constructor | saxv_chain_mini_v5.py:34-41 | the chain is the constructed genesis block holding `"Genesis Block"`, the pool is empty, and the chain is valid |
| MiniV5.Blockchain.AddTransaction | saxv_chain_mini_v5.py:46-54 | the timestamped payment is appended and the answer is `True` |
| MiniV5.Blockchain.ProofOfWork | saxv_chain_mini_v5.py:56-60 | the block is mined to the first nonce round whose hash has the prefix, and that hash is returned |
| MiniV5.Blockchain.AddBlock | saxv_chain_mini_v5.py:62-70 | accepted iff the block names the tip's hash and the proof has the prefix; then the block with the proof as its hash is appended, else nothing changes; validity is kept |
| MiniV5.Blockchain.Mine | saxv_chain_mini_v5.py:72-86 | nothing on an empty pool; otherwise one block holding the whole pool, built on the tip and mined to the first passing round, is appended, the pool is emptied and its index returned; validity is kept |
| MiniV7.Blockchain.constructor | saxv_chain_mini_v7.py:29-36 | the chain is the constructed genesis block with index 0, no transactions and previous hash `"0"`; the pool is empty; the chain is valid (also v8_auto_sync.py:20-22) |
| MiniV7.Blockchain.AddTransaction | saxv_chain_mini_v7.py:41-45 | the answer is the signature check's own, and the transaction joins the pool iff that is `True` (also saxv_chain_mini_v7_gui.py:43-47) |
| MiniV7.Blockchain.MinePending | saxv_chain_mini_v7.py:47-60 | nothing on an empty pool; otherwise one block holding the whole pool, built on the tip and mined to the least passing nonce round, is appended and returned, and the pool is emptied; validity is kept (also saxv_chain_mini_v7_pseudo_multinode.py:46-59) |
| AutoSync.Blockchain.constructor | v8_auto_sync.py:20-22 | the chain is the constructed genesis block alone and the pool is empty; the chain is valid |
| AutoSync.Blockchain.AddTx | v8_auto_sync.py:25-29 | the answer is `verify_tx`'s, and the transaction joins the pool iff it is `True` |
| AutoSync.Blockchain.MinePending | v8_auto_sync.py:30-41 | `None` on an empty pool; otherwise one block holding at most 5 pending, in order, mined to the least passing round; the batch followed by the new pool is the old pool; validity is kept |
| MiniBatch.Blockchain.constructor | saxv_chain_mini_v8.py:24-32 | the chain is the constructed genesis block with index 0 and previous hash `"0"`, the pool is empty, the chain is valid (also saxv_chain_mini_v15.py:28-35) |
| MiniBatch.Blockchain.AddNewTransaction | saxv_chain_mini_v8.py:34-35 | the transaction is the newest pool entry; an uncapped pool grows by it, a capped one keeps its newest 10 entries (also saxv_chain_mini_v15.py:37-40) |
| MiniBatch.Blockchain.MineBatch | saxv_chain_mini_v8.py:37-48 | nothing on an empty pool; otherwise the block built on the tip with the first batch and rehashed once is appended, the pool keeps exactly the rest, and its index is returned; links are kept (also saxv_chain_mini_v10.py:38-50, saxv_chain_mini_v15.py:42-54) |
| MiniBatch.Blockchain.IsChainValid | saxv_chain_mini_v8.py:50-58 | true iff every block from 1 on carries the hash of its own attributes and names its predecessor's hash (also saxv_chain_mini_v15.py:61-69) |
| MiniBatch.MinedBlockPassesOnlyByCollision | saxv_chain_mini_v8.py:41-45 | a block mined by one rehash passes `is_chain_valid`'s hash check only by a digest collision (also saxv_chain_mini_v8.py:54) |
| MiniBatch.TokenBook.constructor | saxv_chain_mini_v15.py:89 | the wallet's key opens with 1000 tokens |
| MiniBatch.TokenBook.TransferToken | saxv_chain_mini_v15.py:91-101 | refused iff the sender holds less than the amount; an unknown sender passing with a non-positive amount raises `KeyError`; otherwise the amount moves, the token total is kept, and the signed record is admitted to the mempool |
| MiniHp.MakeBlock | saxv_chain_mini_v15_final_hp.py:9-17 | a block keeps its fields and its hash is the tuple hash of index, previous hash and transactions |
| MiniHp.Blockchain.constructor | saxv_chain_mini_v15_final_hp.py:20-26 | the chain is the block `(0, "0", [])`, the pool is empty, and the chain is valid |
| MiniHp.Blockchain.AddBlock | saxv_chain_mini_v15_final_hp.py:28-31 | one block with index `len(chain)` on the tip's hash is appended; validity is kept |
| MiniHp.Blockchain.AddTransaction | saxv_chain_mini_v15_final_hp.py:33-38 | one payment record is appended to the pool |
| MiniHp.Blockchain.MinePending | saxv_chain_mini_v15_final_hp.py:40-43 | with pending payments, one block holding all of them is appended and the pool is emptied; otherwise nothing changes; validity is kept |
| MiniHp.Blockchain.TakeSnapshot | saxv_chain_mini_v15_final_hp.py:45-46 | every block's fields in chain order, and on a valid chain each block's index is its position |

## Left out

- Hash internals: SHA-256, SHA3-512 and Python's salted built-in `hash` are uninterpreted functions. No property of a digest is assumed beyond being a function of its input, so claims that rest on collisions are stated as "only if two inputs collide".
- ECDSA: `VerifyingKey.from_string` and `verify` on secp256k1 and NIST P-384 are the two predicates of `Signatures.Curve`; key generation and signing (`Wallet.sign`, `sign_transaction`) are a parameter where a signed record is built.
- Persistence: JSON save and load, `shutil` backups, the v15 gzip `snapshot_chain`, the v8_auto_sync backup file and cloud upload are not modelled. Constructors model a node that starts without a data file. The v4lite merge takes the copy's dictionary, its meta time and the local mtime as inputs. `LoadFromDict` and the round trip model the dictionary step of `_load_from_dict`, not the file step.
- HTTP: Flask routes, `requests` and JSON decoding of replies are not modelled. Each peer's reply is a `Response` value: a failed request, or a status with a body that may lack its keys. Route handlers appear only where the source sequences core calls (`mine`, `mine_block`, `send_saxv`).
- `register_node` and `connect_node`: their `urlparse` handling is library behaviour. The node set is not modelled, and the peers are the input sequence in the order the set is walked.
- GUIs and CLIs: tkinter handlers, `messagebox`, demo `__main__` blocks and `info` printing are not modelled. Only the balance checks of the GUI handlers are kept.
- Concurrency: threads, `threading.Timer` rescheduling, `multiprocessing`, and `time.sleep` throttles inside nonce loops are not modelled; each `sync_chain` or `auto_transaction` is one tick.
- `auto_mining` and `mine_gui` of saxv_coin_v11: their HTTP self-call is not modelled; the wallet credit after a successful mine is what `SquareChain.MineBlock` states.
- Floats: timestamps are an opaque `Time`. Amounts are integers, including the float amounts of saxv_chain_mini_v15_final_hp and the `float(...)` parse of the v4_gui send form.
- The clock: one reading per operation, except the v3 `mine_new_block`, whose loop reads the clock each try and takes a clock function.
- Blocks are values. A block's `transactions` list is not shared with the pool (the source rebinds the pool right after, so nothing observable changes), and no block object is aliased between chains.
- Unbounded searches: each nonce or proof loop takes a witness that solves the puzzle as a ghost argument. The model states nothing about a search that never ends.
- Dictionary order: the records of the sorted-key JSON are the hash function's input as a whole; key order and JSON text formatting are inside the uninterpreted hash.
- web3.py, saxv_chain_cloud_final.py and saxv_chain_v3_1.py (truncated) are not part of this model.
- MiniV5.Blockchain.Mine and MiniBatch.Blockchain.MineBatch: the source's `False` on an empty pool is `None` here, and the returned index is `Some(index)`.
- MiniV7.Blockchain.MinePending: saxv_chain_mini_v7.py and the pseudo multi-node variant answer `False` on an empty pool and the GUI variant `None`; all three are `None` here, and a mined block is `Some(block)`.
- CoinV4Lite.FromRecord: a record's `transactions` and `previous_hash` are text; a record missing either key (which the source stores as `None` without raising) is not modelled.
- MiniBatch.TokenBook.TransferToken: the source returns `None` in both branches and only prints; `Returned(true)` / `Returned(false)` name which branch ran.
- ProofChain.Blockchain.NewTransaction: the source's `False` on a rejected signature is `Returned(None)`, and an admitted index is `Returned(Some(index))`.
- Wallet balances of the coin v6 to v11 scripts are a single `Wallet` object; the node identifier `NODE_ID` (a random UUID) is its address.
