/** The pending-pool slices of the object-block chains: a block takes the prefix
    `pool[:n]`, the pool keeps `pool[n:]`, and the capped mempools keep the newest
    entries `pool[-10:]`. Python slices clamp at the ends, so none of them fails. */
module Mempool {
  /** The cap of saxv_chain_mini_v13 and saxv_chain_mini_v15. */
  const MempoolCap: nat := 10

  /** `pool[:n]` */
  function Batch<T>(pool: seq<T>, n: nat): (b: seq<T>)
    ensures |b| == if |pool| < n then |pool| else n
    ensures b == pool[..|b|]
  {
    if |pool| <= n then pool else pool[..n]
  }

  /** `pool[n:]` */
  function Rest<T>(pool: seq<T>, n: nat): (r: seq<T>)
    ensures |r| == if |pool| < n then 0 else |pool| - n
  {
    if |pool| <= n then [] else pool[n..]
  }

  /** The batch and what stays behind give back the pool, in order: nothing is
      lost, duplicated or reordered. */
  lemma BatchThenRest<T>(pool: seq<T>, n: nat)
    ensures Batch(pool, n) + Rest(pool, n) == pool
  {
    if |pool| > n {
      assert pool[..n] + pool[n..] == pool;
    }
  }

  /** A pool no longer than the batch goes into the block whole. */
  lemma SmallPoolDrains<T>(pool: seq<T>, n: nat)
    requires |pool| <= n
    ensures Batch(pool, n) == pool && Rest(pool, n) == []
  {
  }

  /** `if len(pool) > 10: pool = pool[-10:]` */
  function Newest<T>(pool: seq<T>): (r: seq<T>)
    ensures |r| == if |pool| > MempoolCap then MempoolCap else |pool|
  {
    if |pool| > MempoolCap then pool[|pool| - MempoolCap..] else pool
  }

  /** The capped pool is the tail of the pool: the newest entries in their order,
      with exactly the oldest overflow dropped. */
  lemma {:induction false} NewestIsTail<T>(pool: seq<T>)
    ensures var r := Newest(pool);
            && |r| <= MempoolCap
            && pool[|pool| - |r|..] == r
            && (forall i :: 0 <= i < |r| ==> r[i] == pool[|pool| - |r| + i])
            && (|pool| <= MempoolCap ==> r == pool)
  {
    var r := Newest(pool);
    if |pool| > MempoolCap {
      assert r == pool[|pool| - MempoolCap..];
    }
  }

  /** Admitting one entry to a full pool of ten drops exactly its oldest entry. */
  lemma {:induction false} AdmitToFullDropsOldest<T>(pool: seq<T>, tx: T)
    requires |pool| == MempoolCap
    ensures Newest(pool + [tx]) == pool[1..] + [tx]
  {
    var p := pool + [tx];
    assert Newest(p) == p[1..];
    assert p[1..] == pool[1..] + [tx];
  }
}
