/** saxv_chain_mini_v15_final_hp: a RAM-only chain whose blocks are hashed with
    Python's process-salted built-in `hash` over (index, previous hash, the text of
    the transactions), a pending pool drained whole by `mine_pending`, and a
    snapshot of every block's fields. */
module MiniHp {
  /** `{"sender", "receiver", "amount"}`; the amount, a float in the source, is
      an integer here. */
  datatype Payment = Payment(sender: string, receiver: string, amount: int)

  datatype Block = Block(index: int, previousHash: string, transactions: seq<Payment>, hash: string)

  /** `Block(index, previous_hash, transactions)`: the hash is `str(hash((index,
      previous_hash, str(transactions))))`, an uninterpreted `tupleHash`. */
  function MakeBlock(tupleHash: (int, string, seq<Payment>) -> string, index: int, previousHash: string, transactions: seq<Payment>): (b: Block)
    ensures b.index == index && b.previousHash == previousHash && b.transactions == transactions
    ensures b.hash == tupleHash(index, previousHash, transactions)
  {
    Block(index, previousHash, transactions, tupleHash(index, previousHash, transactions))
  }

  /** `{"chain": [vars(b) for b in chain]}` */
  datatype Snapshot = Snapshot(chain: seq<Block>)

  class Blockchain {
    const tupleHash: (int, string, seq<Payment>) -> string
    var chain: seq<Block>
    var pendingTransactions: seq<Payment>

    /** Block `i` has index `i`, carries its own hash and names its
        predecessor's: what `add_block` builds. */
    ghost predicate Valid()
      reads this
    {
      && |chain| > 0
      && (forall i :: 0 <= i < |chain| ==> chain[i].index == i && chain[i].hash == tupleHash(i, chain[i].previousHash, chain[i].transactions))
      && (forall i :: 1 <= i < |chain| ==> chain[i].previousHash == chain[i - 1].hash)
    }

    /** `__init__` and `create_genesis_block`: `Block(0, "0", [])` */
    constructor(tupleHash: (int, string, seq<Payment>) -> string)
      ensures this.tupleHash == tupleHash
      ensures chain == [MakeBlock(tupleHash, 0, "0", [])]
      ensures pendingTransactions == []
      ensures Valid()
    {
      this.tupleHash := tupleHash;
      chain := [MakeBlock(tupleHash, 0, "0", [])];
      pendingTransactions := [];
    }

    /** `add_block`: appends a block with index `len(chain)` on top of the tip's
        hash. */
    method AddBlock(transactions: seq<Payment>)
      requires |chain| > 0
      modifies this
      ensures chain == old(chain) + [MakeBlock(tupleHash, |old(chain)|, old(chain)[|old(chain)| - 1].hash, transactions)]
      ensures pendingTransactions == old(pendingTransactions)
      ensures old(Valid()) ==> Valid()
    {
      var previousHash := chain[|chain| - 1].hash;
      var block := MakeBlock(tupleHash, |chain|, previousHash, transactions);
      chain := chain + [block];
    }

    /** `add_transaction`: appends one payment record. */
    method AddTransaction(sender: string, receiver: string, amount: int)
      modifies this
      ensures pendingTransactions == old(pendingTransactions) + [Payment(sender, receiver, amount)]
      ensures chain == old(chain)
    {
      pendingTransactions := pendingTransactions + [Payment(sender, receiver, amount)];
    }

    /** `mine_pending`: with pending payments, one block holding all of them is
        appended and the pool empties; with none, nothing changes. */
    method MinePending()
      requires |chain| > 0
      modifies this
      ensures old(pendingTransactions) == [] ==> chain == old(chain) && pendingTransactions == []
      ensures old(pendingTransactions) != [] ==>
        && |chain| == |old(chain)| + 1 && chain[..|old(chain)|] == old(chain)
        && chain[|chain| - 1].transactions == old(pendingTransactions)
        && chain[|chain| - 1].index == |old(chain)|
        && chain[|chain| - 1].previousHash == old(chain)[|old(chain)| - 1].hash
        && pendingTransactions == []
      ensures old(Valid()) ==> Valid()
    {
      if pendingTransactions != [] {
        ghost var before := chain;
        AddBlock(pendingTransactions);
        assert chain[..|before|] == before;
        pendingTransactions := [];
      }
    }

    /** `snapshot`: every block's fields, in chain order; on a chain `add_block`
        built, entry `i` is block number `i`. */
    function TakeSnapshot(): (s: Snapshot)
      reads this
      ensures |s.chain| == |chain|
      ensures forall i :: 0 <= i < |chain| ==> s.chain[i] == chain[i]
      ensures Valid() ==> forall i :: 0 <= i < |s.chain| ==> s.chain[i].index == i
    {
      Snapshot(chain)
    }
  }
}
