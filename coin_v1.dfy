/** `SAXVCoin` of saxv_coin_v1.py: a capped supply and a balances dictionary,
    both updated in place. Loading and saving the JSON data file are not modelled. */
module CoinV1 {
  import opened Wrappers
  import opened Ledger

  class SAXVCoin {
    const maxSupply: int
    var totalSupply: int
    var balances: Balances

    /** The bookkeeping the script relies on: every minted coin sits in some
        balance, and no more than the cap were ever minted. */
    ghost predicate Books()
      reads this
    {
      totalSupply == Sum(balances) && totalSupply <= maxSupply
    }

    /** A fresh coin (the data file is absent). */
    constructor (maxSupply: int)
      ensures this.maxSupply == maxSupply && totalSupply == 0 && balances == map[]
      ensures maxSupply >= 0 ==> Books()
    {
      this.maxSupply := maxSupply;
      totalSupply := 0;
      balances := map[];
    }

    /** `mint`: refused, with nothing changed, when it would pass the cap. */
    method Mint(address: Address, amount: int)
      modifies this
      ensures old(totalSupply) + amount > maxSupply ==>
                totalSupply == old(totalSupply) && balances == old(balances)
      ensures old(totalSupply) + amount <= maxSupply ==>
                totalSupply == old(totalSupply) + amount &&
                balances == Credit(old(balances), address, amount)
      ensures old(Books()) ==> Books()
    {
      if totalSupply + amount > maxSupply {
        return;
      }
      CreditSum(balances, address, amount);
      totalSupply := totalSupply + amount;
      balances := Credit(balances, address, amount);
    }

    /** `transfer`: refused when the sender holds less than `amount` (0 if unknown).
        An unknown sender that passes the check (`amount <= 0`) makes
        `self.balances[sender] -= amount` raise `KeyError` before anything changes. */
    method Transfer(sender: Address, receiver: Address, amount: int) returns (err: Option<PyError>)
      modifies this
      ensures totalSupply == old(totalSupply)
      ensures Get(old(balances), sender) < amount ==> err == None && balances == old(balances)
      ensures Get(old(balances), sender) >= amount && sender !in old(balances) ==>
                err == Some(KeyError) && balances == old(balances)
      ensures Get(old(balances), sender) >= amount && sender in old(balances) ==>
                err == None && balances == Move(old(balances), sender, receiver, amount)
      ensures Sum(balances) == old(Sum(balances))
      ensures old(Books()) ==> Books()
    {
      if Get(balances, sender) < amount {
        return None;
      }
      if sender !in balances {
        return Some(KeyError);
      }
      MoveSum(balances, sender, receiver, amount);
      balances := Move(balances, sender, receiver, amount);
      err := None;
    }
  }
}
