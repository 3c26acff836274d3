/** The balances dictionary that the coin scripts update in place, seen as a
    finite map from address to integer amount, and the bookkeeping facts about
    its total. */
module Ledger {

  type Address = string
  type Balances = map<Address, int>

  /** `balances.get(a, 0)` */
  function Get(m: Balances, a: Address): int {
    if a in m then m[a] else 0
  }

  ghost function Pick(m: Balances): (k: Address)
    requires m != map[]
    ensures k in m
  {
    var k :| k in m; k
  }

  /** The sum of all balances. */
  ghost function Sum(m: Balances): int
    decreases |m|
  {
    if m == map[] then 0 else m[Pick(m)] + Sum(m - {Pick(m)})
  }

  /** Any key can be taken out of the sum first. */
  lemma {:induction false} SumPick(m: Balances, j: Address)
    requires j in m
    ensures Sum(m) == m[j] + Sum(m - {j})
    decreases |m|
  {
    var k := Pick(m);
    if k != j {
      assert (m - {k}) - {j} == (m - {j}) - {k};
      SumPick(m - {k}, j);
      SumPick(m - {j}, k);
    }
  }

  /** Setting one balance changes the sum by the difference. */
  lemma SumUpdate(m: Balances, a: Address, v: int)
    ensures Sum(m[a := v]) == Sum(m) - Get(m, a) + v
  {
    var m' := m[a := v];
    SumPick(m', a);
    assert m' - {a} == m - {a};
    if a in m { SumPick(m, a); } else { assert m - {a} == m; }
  }

  /** `balances[a] = balances.get(a, 0) + x` */
  function Credit(m: Balances, a: Address, x: int): (r: Balances)
    ensures a in r && r.Keys == m.Keys + {a}
    ensures Get(r, a) == Get(m, a) + x
    ensures forall k :: k != a ==> Get(r, k) == Get(m, k)
  {
    m[a := Get(m, a) + x]
  }

  lemma CreditSum(m: Balances, a: Address, x: int)
    ensures Sum(Credit(m, a, x)) == Sum(m) + x
  {
    SumUpdate(m, a, Get(m, a) + x);
  }

  /** `balances[s] -= x; balances[r] = balances.get(r, 0) + x` once `s` is a key. */
  function Move(m: Balances, s: Address, r: Address, x: int): (n: Balances)
    requires s in m
    ensures n.Keys == m.Keys + {r}
    ensures forall k :: k != s && k != r ==> Get(n, k) == Get(m, k)
    ensures s != r ==> Get(n, s) == m[s] - x && Get(n, r) == Get(m, r) + x
    ensures s == r ==> n == m
  {
    Credit(m[s := m[s] - x], r, x)
  }

  /** A transfer neither creates nor destroys coins, also from an address to itself. */
  lemma MoveSum(m: Balances, s: Address, r: Address, x: int)
    requires s in m
    ensures Sum(Move(m, s, r, x)) == Sum(m)
  {
    var m1 := m[s := m[s] - x];
    SumUpdate(m, s, m[s] - x);
    assert Sum(m1) == Sum(m) - x;
    CreditSum(m1, r, x);
    assert Move(m, s, r, x) == Credit(m1, r, x);
  }

  /** How often an address occurs in a list of users. */
  function Count(us: seq<Address>, a: Address): nat {
    if us == [] then 0 else (if us[0] == a then 1 else 0) + Count(us[1..], a)
  }

  /** `for u in users: balances[u] = balances.get(u, 0) + per` */
  function AddEach(m: Balances, us: seq<Address>, per: int): Balances
    decreases |us|
  {
    if us == [] then m else AddEach(Credit(m, us[0], per), us[1..], per)
  }

  /** One more user adds one more share. */
  lemma MulSucc(x: int, n: nat)
    ensures x * (n + 1) == x * n + x
  {
  }

  /** Each listed user gains `per` once per occurrence; nobody else changes. */
  lemma {:induction false} AddEachGet(m: Balances, us: seq<Address>, per: int, a: Address)
    ensures Get(AddEach(m, us, per), a) == Get(m, a) + per * Count(us, a)
    decreases |us|
  {
    if us != [] {
      var m1 := Credit(m, us[0], per);
      AddEachGet(m1, us[1..], per, a);
      var n := Count(us[1..], a);
      if us[0] == a {
        assert Count(us, a) == n + 1;
        MulSucc(per, n);
      } else {
        assert Count(us, a) == n;
      }
    }
  }

  /** The equal split adds exactly `per * len(users)` to the sum of balances. */
  lemma {:induction false} AddEachSum(m: Balances, us: seq<Address>, per: int)
    ensures Sum(AddEach(m, us, per)) == Sum(m) + per * |us|
    decreases |us|
  {
    if us != [] {
      var m1 := Credit(m, us[0], per);
      var rest := us[1..];
      CreditSum(m, us[0], per);
      AddEachSum(m1, rest, per);
      assert AddEach(m, us, per) == AddEach(m1, rest, per);
      MulSucc(per, |rest|);
    }
  }

  /** The equal splits divide by the number of users with floor division: the
      split never exceeds the supply, and less than one coin per user is left
      over. */
  lemma SplitFits(supply: int, n: int)
    requires n > 0
    ensures (supply / n) * n <= supply < (supply / n) * n + n
  {
  }

  /** `for user in user_list: balances[user] = per_user` */
  function SetEach(m: Balances, us: seq<Address>, v: int): Balances
    decreases |us|
  {
    if us == [] then m else SetEach(m[us[0] := v], us[1..], v)
  }

  /** Every listed user ends with exactly `v`, whatever they held; nobody else changes. */
  lemma {:induction false} SetEachGet(m: Balances, us: seq<Address>, v: int, a: Address)
    ensures Get(SetEach(m, us, v), a) == if a in us then v else Get(m, a)
    decreases |us|
  {
    if us != [] {
      SetEachGet(m[us[0] := v], us[1..], v, a);
    }
  }

  /** Over distinct users who held nothing before, the overwrite adds `v * len(users)`. */
  lemma {:induction false} SetEachSum(m: Balances, us: seq<Address>, v: int)
    requires forall i, j :: 0 <= i < j < |us| ==> us[i] != us[j]
    requires forall i :: 0 <= i < |us| ==> us[i] !in m
    ensures Sum(SetEach(m, us, v)) == Sum(m) + v * |us|
    decreases |us|
  {
    if us != [] {
      SumUpdate(m, us[0], v);
      var m' := m[us[0] := v];
      forall i | 0 <= i < |us[1..]| ensures us[1..][i] !in m' {
        assert us[1..][i] == us[i + 1];
      }
      SetEachSum(m', us[1..], v);
    }
  }

  /** The distinct names in a list of users. */
  function Listed(us: seq<Address>): set<Address> {
    set u | u in us
  }

  /** Overwriting one balance with `v` gives the other balances plus `v`. */
  lemma SumOverwrite(n: Balances, u: Address, v: int)
    ensures Sum(n[u := v]) == Sum(n - {u}) + v
  {
    SumUpdate(n, u, v);
    if u in n { SumPick(n, u); } else { assert n - {u} == n; }
  }

  /** Removing the later names after overwriting the first one. */
  lemma WithoutListed(m: Balances, u: Address, v: int, lr: set<Address>)
    ensures u in lr ==> m[u := v] - lr == m - lr
    ensures u !in lr ==> m[u := v] - lr == (m - lr)[u := v] && m - ({u} + lr) == (m - lr) - {u}
  {
  }

  /** The names of a list are its first name and the names of the rest. */
  lemma ListedCons(us: seq<Address>)
    requires us != []
    ensures Listed(us) == {us[0]} + Listed(us[1..])
  {
    forall x | x in Listed(us) ensures x in {us[0]} + Listed(us[1..]) {
      var k :| 0 <= k < |us| && us[k] == x;
      if k > 0 { assert us[1..][k - 1] == x; }
    }
  }

  /** However often a name is repeated, `balances[user] = per_user` leaves the
      unlisted balances as they were and every distinct listed user at `v`. */
  lemma {:induction false} SetEachSumListed(m: Balances, us: seq<Address>, v: int)
    ensures Sum(SetEach(m, us, v)) == Sum(m - Listed(us)) + v * |Listed(us)|
    decreases |us|
  {
    if us == [] {
      assert Listed(us) == {};
      assert m - Listed(us) == m;
    } else {
      var u, rest := us[0], us[1..];
      var lr := Listed(rest);
      ListedCons(us);
      SetEachSumListed(m[u := v], rest, v);
      WithoutListed(m, u, v, lr);
      if u in lr {
        assert Listed(us) == lr;
      } else {
        SumOverwrite(m - lr, u, v);
        assert |Listed(us)| == |lr| + 1;
        MulSucc(v, |lr|);
      }
    }
  }

  /** No more distinct names than entries, and fewer once a name repeats. */
  lemma {:induction false} ListedSize(us: seq<Address>)
    ensures |Listed(us)| <= |us|
    ensures (exists i, j :: 0 <= i < j < |us| && us[i] == us[j]) ==> |Listed(us)| < |us|
    decreases |us|
  {
    if us == [] {
      assert Listed(us) == {};
    } else {
      var u, rest := us[0], us[1..];
      ListedCons(us);
      ListedSize(rest);
      if exists i, j :: 0 <= i < j < |us| && us[i] == us[j] {
        var i, j :| 0 <= i < j < |us| && us[i] == us[j];
        assert rest[j - 1] == us[j];
        if i == 0 {
          assert u in Listed(rest);
          assert Listed(us) == Listed(rest);
        } else {
          assert rest[i - 1] == us[i];
        }
      }
    }
  }

  /** A positive share times fewer names is less. */
  lemma MulLess(v: int, a: nat, b: nat)
    requires v > 0 && a < b
    ensures v * a < v * b
  {
  }

  /** With a positive share, a name listed twice makes the overwrite add less
      than `per_user * len(users)`, the amount written to `total_supply`. */
  lemma SetEachDuplicate(us: seq<Address>, v: int)
    requires v > 0
    requires exists i, j :: 0 <= i < j < |us| && us[i] == us[j]
    ensures Sum(SetEach(map[], us, v)) < v * |us|
  {
    var e: Balances := map[];
    SetEachSumListed(e, us, v);
    assert e - Listed(us) == e;
    ListedSize(us);
    MulLess(v, |Listed(us)|, |us|);
  }
}
