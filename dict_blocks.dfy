/** The dictionary blocks of the Flask-style chains (saxv_chain_v2, saxv_chain_v3,
    saxv_chain_v4_gui, saxv_chain_mini_v6 and the coin v6 to v11 scripts): the
    block record, the proof puzzle over the previous proof, chain validity, and the
    longest-chain choice over the replies of the peers. */
module DictBlocks {
  import opened Wrappers
  import opened Text

  /** `{'index', 'timestamp', 'transactions', 'proof', 'previous_hash'}` */
  datatype Block<T> = Block(index: int, timestamp: Time, transactions: seq<T>, proof: int, previousHash: string)

  /** The JSON body of a peer's `/chain` reply. */
  datatype Reply<T> = Reply(length: int, chain: seq<Block<T>>)

  /** One peer's answer: the request failed (connection error, a body that is not
      JSON), or it came back with a status and a body that may lack its keys. */
  datatype Response<T> = Failed | Answered(status: int, body: Option<Reply<T>>)

  /** `sha256(f'{last_proof}{proof}')[:d] == "0" * d` */
  predicate ProofOk(sha256: string -> string, d: nat, lastProof: int, proof: int) {
    SliceIsZeros(sha256(IntStr(lastProof) + IntStr(proof)), d)
  }

  /** Block `i` names the hash of block `i - 1` and solves the puzzle over its proof. */
  predicate Linked<T>(sha256: string -> string, d: nat, blockHash: Block<T> -> string, chain: seq<Block<T>>, i: int)
    requires 1 <= i < |chain|
  {
    chain[i].previousHash == blockHash(chain[i - 1]) && ProofOk(sha256, d, chain[i - 1].proof, chain[i].proof)
  }

  /** What `valid_chain` answers on a non-empty chain. */
  predicate ChainValid<T>(sha256: string -> string, d: nat, blockHash: Block<T> -> string, chain: seq<Block<T>>) {
    forall i :: 1 <= i < |chain| ==> Linked(sha256, d, blockHash, chain, i)
  }

  /** `valid_chain`: `chain[0]` raises on an empty chain; otherwise the walk from
      block 1 stops at the first block that is not linked. */
  method ValidChain<T>(sha256: string -> string, d: nat, blockHash: Block<T> -> string, chain: seq<Block<T>>) returns (r: Outcome<bool>)
    ensures |chain| == 0 ==> r == Raised(IndexError)
    ensures |chain| > 0 ==> r == Returned(ChainValid(sha256, d, blockHash, chain))
  {
    if |chain| == 0 {
      return Raised(IndexError);
    }
    var lastBlock := chain[0];
    var currentIndex := 1;
    while currentIndex < |chain|
      invariant 1 <= currentIndex <= |chain|
      invariant lastBlock == chain[currentIndex - 1]
      invariant forall i :: 1 <= i < currentIndex ==> Linked(sha256, d, blockHash, chain, i)
    {
      var block := chain[currentIndex];
      if block.previousHash != blockHash(lastBlock) {
        assert !Linked(sha256, d, blockHash, chain, currentIndex);
        return Returned(false);
      }
      if !ProofOk(sha256, d, lastBlock.proof, block.proof) {
        assert !Linked(sha256, d, blockHash, chain, currentIndex);
        return Returned(false);
      }
      lastBlock := block;
      currentIndex := currentIndex + 1;
    }
    r := Returned(true);
  }

  /** `proof_of_work`: counting up from 0, the first proof that solves the puzzle.
      The search ends for lack of anything better than a witness `w` that solves it. */
  method ProofOfWork(sha256: string -> string, d: nat, lastProof: int, ghost w: nat) returns (proof: nat)
    requires ProofOk(sha256, d, lastProof, w)
    ensures proof <= w
    ensures ProofOk(sha256, d, lastProof, proof)
    ensures forall k :: 0 <= k < proof ==> !ProofOk(sha256, d, lastProof, k)
  {
    proof := 0;
    while !ProofOk(sha256, d, lastProof, proof)
      invariant proof <= w
      invariant forall k :: 0 <= k < proof ==> !ProofOk(sha256, d, lastProof, k)
      decreases w - proof
    {
      proof := proof + 1;
    }
  }

  /** A reply that replaces the candidate: status 200, a body with both keys, a
      reported length above the longest so far, and a non-empty valid chain. */
  predicate Qualifies<T>(sha256: string -> string, d: nat, blockHash: Block<T> -> string, resp: Response<T>, bound: int) {
    && resp.Answered? && resp.status == 200 && resp.body.Some?
    && resp.body.value.length > bound
    && |resp.body.value.chain| > 0
    && ChainValid(sha256, d, blockHash, resp.body.value.chain)
  }

  /** The candidate left after the replies in order, skipping every reply that does
      not qualify; the running bound becomes the reported length of each pick. */
  function Pick<T>(sha256: string -> string, d: nat, blockHash: Block<T> -> string,
                   responses: seq<Response<T>>, bound: int, chosen: Option<seq<Block<T>>>): Option<seq<Block<T>>>
    decreases |responses|
  {
    if |responses| == 0 then chosen
    else if Qualifies(sha256, d, blockHash, responses[0], bound) then
      Pick(sha256, d, blockHash, responses[1..], responses[0].body.value.length, Some(responses[0].body.value.chain))
    else Pick(sha256, d, blockHash, responses[1..], bound, chosen)
  }

  /** Reply `j` qualifies, carries chain `c`, reports a length no other qualifying
      reply beats, and every earlier qualifying reply reports strictly less. */
  ghost predicate IsBest<T>(sha256: string -> string, d: nat, blockHash: Block<T> -> string,
                            responses: seq<Response<T>>, bound: int, c: seq<Block<T>>, j: int) {
    && 0 <= j < |responses|
    && Qualifies(sha256, d, blockHash, responses[j], bound)
    && responses[j].body.value.chain == c
    && (forall k :: 0 <= k < |responses| && Qualifies(sha256, d, blockHash, responses[k], bound) ==>
          responses[k].body.value.length <= responses[j].body.value.length)
    && (forall k :: 0 <= k < j && Qualifies(sha256, d, blockHash, responses[k], bound) ==>
          responses[k].body.value.length < responses[j].body.value.length)
  }

  lemma {:induction false} PickFindsBest<T>(sha256: string -> string, d: nat, blockHash: Block<T> -> string,
                                            responses: seq<Response<T>>, bound: int, chosen: Option<seq<Block<T>>>)
    ensures var p := Pick(sha256, d, blockHash, responses, bound, chosen);
            || (p == chosen && forall k :: 0 <= k < |responses| ==> !Qualifies(sha256, d, blockHash, responses[k], bound))
            || (p.Some? && exists j :: IsBest(sha256, d, blockHash, responses, bound, p.value, j))
    decreases |responses|
  {
    if |responses| > 0 {
      var rest := responses[1..];
      var p := Pick(sha256, d, blockHash, responses, bound, chosen);
      if Qualifies(sha256, d, blockHash, responses[0], bound) {
        var b0 := responses[0].body.value.length;
        PickFindsBest(sha256, d, blockHash, rest, b0, Some(responses[0].body.value.chain));
        if p == Some(responses[0].body.value.chain) && forall k :: 0 <= k < |rest| ==> !Qualifies(sha256, d, blockHash, rest[k], b0) {
          forall k | 0 <= k < |responses| && Qualifies(sha256, d, blockHash, responses[k], bound)
            ensures responses[k].body.value.length <= b0
          {
            if k > 0 {
              assert rest[k - 1] == responses[k];
            }
          }
          assert IsBest(sha256, d, blockHash, responses, bound, p.value, 0);
        } else {
          var j' :| IsBest(sha256, d, blockHash, rest, b0, p.value, j');
          var bj := rest[j'].body.value.length;
          assert rest[j'] == responses[j' + 1];
          forall k | 0 <= k < |responses| && Qualifies(sha256, d, blockHash, responses[k], bound)
            ensures responses[k].body.value.length <= bj
            ensures k < j' + 1 ==> responses[k].body.value.length < bj
          {
            if k > 0 {
              assert rest[k - 1] == responses[k];
              if !Qualifies(sha256, d, blockHash, rest[k - 1], b0) {
                assert responses[k].body.value.length <= b0;
              }
            }
          }
          assert IsBest(sha256, d, blockHash, responses, bound, p.value, j' + 1);
        }
      } else {
        PickFindsBest(sha256, d, blockHash, rest, bound, chosen);
        if p == chosen && forall k :: 0 <= k < |rest| ==> !Qualifies(sha256, d, blockHash, rest[k], bound) {
          forall k | 0 <= k < |responses|
            ensures !Qualifies(sha256, d, blockHash, responses[k], bound)
          {
            if k > 0 {
              assert rest[k - 1] == responses[k];
            }
          }
        } else {
          var j' :| IsBest(sha256, d, blockHash, rest, bound, p.value, j');
          assert rest[j'] == responses[j' + 1];
          forall k | 0 <= k < |responses| && Qualifies(sha256, d, blockHash, responses[k], bound)
            ensures responses[k].body.value.length <= rest[j'].body.value.length
            ensures k < j' + 1 ==> responses[k].body.value.length < rest[j'].body.value.length
          {
            assert k > 0;
            assert rest[k - 1] == responses[k];
          }
          assert IsBest(sha256, d, blockHash, responses, bound, p.value, j' + 1);
        }
      }
    }
  }

  /** Starting with no candidate, the choice is empty exactly when no reply
      qualifies, and otherwise it is the chain of the longest qualifying reply,
      the earliest one among equally long replies. */
  lemma PickLongest<T>(sha256: string -> string, d: nat, blockHash: Block<T> -> string, responses: seq<Response<T>>, bound: int)
    ensures Pick(sha256, d, blockHash, responses, bound, None).None? <==>
              forall k :: 0 <= k < |responses| ==> !Qualifies(sha256, d, blockHash, responses[k], bound)
    ensures var p := Pick(sha256, d, blockHash, responses, bound, None);
            p.Some? ==> exists j :: IsBest(sha256, d, blockHash, responses, bound, p.value, j)
  {
    PickFindsBest(sha256, d, blockHash, responses, bound, None);
  }

  /** A reply is honest when it reports the length of the chain it sends. */
  predicate Honest<T>(resp: Response<T>) {
    resp.Answered? && resp.body.Some? ==> resp.body.value.length == |resp.body.value.chain|
  }

  /** With honest peers the adopted chain is longer than the bound. */
  lemma HonestPickIsLonger<T>(sha256: string -> string, d: nat, blockHash: Block<T> -> string, responses: seq<Response<T>>, bound: int)
    requires forall k :: 0 <= k < |responses| ==> Honest(responses[k])
    ensures var p := Pick(sha256, d, blockHash, responses, bound, None);
            p.Some? ==> |p.value| > bound
  {
    PickLongest(sha256, d, blockHash, responses, bound);
    var p := Pick(sha256, d, blockHash, responses, bound, None);
    if p.Some? {
      var j :| IsBest(sha256, d, blockHash, responses, bound, p.value, j);
      assert Honest(responses[j]);
    }
  }

  /** Only the reported length is compared: a lone peer announcing more blocks
      than the local chain has wins with any non-empty valid chain, even one no
      longer than the local chain (such as one block against a local chain of 2). */
  lemma ReportedLengthIsTrusted<T>(sha256: string -> string, d: nat, blockHash: Block<T> -> string,
                                   c: seq<Block<T>>, reported: int, localLength: int)
    requires 0 < |c| <= localLength < reported
    requires ChainValid(sha256, d, blockHash, c)
    ensures Pick(sha256, d, blockHash, [Answered(200, Some(Reply(reported, c)))], localLength, None) == Some(c)
  {
    var responses: seq<Response<T>> := [Answered(200, Some(Reply(reported, c)))];
    assert Qualifies(sha256, d, blockHash, responses[0], localLength);
    assert responses[1..] == [];
  }

  /** The loop of `resolve_conflicts` in saxv_chain_v3: a 200 body without
      `length` or `chain` raises `KeyError`, and `valid_chain` raises on an empty
      chain that reports more blocks than the bound; only request errors and
      other statuses are skipped. */
  function Select<T>(sha256: string -> string, d: nat, blockHash: Block<T> -> string,
                     responses: seq<Response<T>>, bound: int, chosen: Option<seq<Block<T>>>): Outcome<Option<seq<Block<T>>>>
    decreases |responses|
  {
    if |responses| == 0 then Returned(chosen)
    else
      var resp := responses[0];
      var rest := responses[1..];
      if !(resp.Answered? && resp.status == 200) then Select(sha256, d, blockHash, rest, bound, chosen)
      else if resp.body.None? then Raised(KeyError)
      else if resp.body.value.length <= bound then Select(sha256, d, blockHash, rest, bound, chosen)
      else if |resp.body.value.chain| == 0 then Raised(IndexError)
      else if ChainValid(sha256, d, blockHash, resp.body.value.chain) then
        Select(sha256, d, blockHash, rest, resp.body.value.length, Some(resp.body.value.chain))
      else Select(sha256, d, blockHash, rest, bound, chosen)
  }

  /** When it returns, the raising loop has chosen what `Pick` chooses. */
  lemma {:induction false} SelectAgreesWithPick<T>(sha256: string -> string, d: nat, blockHash: Block<T> -> string,
                                                   responses: seq<Response<T>>, bound: int, chosen: Option<seq<Block<T>>>)
    ensures Select(sha256, d, blockHash, responses, bound, chosen).Returned? ==>
              Select(sha256, d, blockHash, responses, bound, chosen).value == Pick(sha256, d, blockHash, responses, bound, chosen)
    decreases |responses|
  {
    if |responses| > 0 {
      var resp := responses[0];
      if Qualifies(sha256, d, blockHash, resp, bound) {
        SelectAgreesWithPick(sha256, d, blockHash, responses[1..], resp.body.value.length, Some(resp.body.value.chain));
      } else {
        SelectAgreesWithPick(sha256, d, blockHash, responses[1..], bound, chosen);
      }
    }
  }

  /** It raises only when some peer answered 200 with a body lacking a key or
      carrying an empty chain. */
  lemma {:induction false} SelectRaisesOnlyOnMalformed<T>(sha256: string -> string, d: nat, blockHash: Block<T> -> string,
                                                          responses: seq<Response<T>>, bound: int, chosen: Option<seq<Block<T>>>)
    requires forall k :: 0 <= k < |responses| && responses[k].Answered? && responses[k].status == 200 ==>
               responses[k].body.Some? && |responses[k].body.value.chain| > 0
    ensures Select(sha256, d, blockHash, responses, bound, chosen).Returned?
    decreases |responses|
  {
    if |responses| > 0 {
      var rest := responses[1..];
      forall k | 0 <= k < |rest| && rest[k].Answered? && rest[k].status == 200
        ensures rest[k].body.Some? && |rest[k].body.value.chain| > 0
      {
        assert rest[k] == responses[k + 1];
      }
      var resp := responses[0];
      if Qualifies(sha256, d, blockHash, resp, bound) {
        SelectRaisesOnlyOnMalformed(sha256, d, blockHash, rest, resp.body.value.length, Some(resp.body.value.chain));
      } else {
        SelectRaisesOnlyOnMalformed(sha256, d, blockHash, rest, bound, chosen);
      }
    }
  }
}
