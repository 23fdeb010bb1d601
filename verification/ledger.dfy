/** Reference semantics for the messages the Osmosis denom emits: how the chain applies a
    bank send and the token-factory mint and burn to account balances, in submission order,
    aborting the whole response on the first failure. This is the environment's side of the
    contract; it states what the emitted descriptors mean. */
module Ledger {
  import opened Wrappers
  import opened Decimal
  import opened Cosmos
  import opened Osmosis

  /** Balances keyed by (address, denom); a missing key holds zero. */
  type Balances = map<(string, string), nat>

  datatype ExecError = InsufficientFunds | InvalidCoin | UnsupportedMessage

  function Balance(b: Balances, addr: string, denom: string): nat
  {
    if (addr, denom) in b then b[(addr, denom)] else 0
  }

  /** The change of a single balance by `n` on one account and denom. */
  function Delta(addr: string, denom: string, n: nat, a: string, d: string): nat
  {
    if a == addr && d == denom then n else 0
  }

  function Credit(b: Balances, addr: string, denom: string, n: nat): (b': Balances)
    ensures forall a, d :: Balance(b', a, d) == Balance(b, a, d) + Delta(addr, denom, n, a, d)
  {
    b[(addr, denom) := Balance(b, addr, denom) + n]
  }

  function Debit(b: Balances, addr: string, denom: string, n: nat): (b': Balances)
    requires Balance(b, addr, denom) >= n
    ensures forall a, d :: Balance(b', a, d) == Balance(b, a, d) - Delta(addr, denom, n, a, d)
  {
    b[(addr, denom) := Balance(b, addr, denom) - n]
  }

  /** Removes every coin from `from`, failing if any balance is short. */
  function SubCoins(b: Balances, from: string, coins: seq<Coin>): Result<Balances, ExecError>
    decreases |coins|
  {
    if |coins| == 0 then Success(b)
    else if Balance(b, from, coins[0].denom) < coins[0].amount then Failure(InsufficientFunds)
    else SubCoins(Debit(b, from, coins[0].denom, coins[0].amount), from, coins[1..])
  }

  /** Adds every coin to `to`. */
  function AddCoins(b: Balances, to: string, coins: seq<Coin>): Balances
    decreases |coins|
  {
    if |coins| == 0 then b else AddCoins(Credit(b, to, coins[0].denom, coins[0].amount), to, coins[1..])
  }

  /** Reads the amount of a token-factory coin. */
  function CoinAmount(coin: Option<ProtoCoin>): Result<(string, nat), ExecError>
  {
    match coin
    case None => Failure(InvalidCoin)
    case Some(c) =>
      match ParseDecimal(c.amount)
      case None => Failure(InvalidCoin)
      case Some(n) => Success((c.denom, n))
  }

  /** A bank send's coin list passes the chain's stateless check: non-empty, every amount positive. */
  predicate PositiveCoins(coins: seq<Coin>)
  {
    |coins| > 0 && forall k :: 0 <= k < |coins| ==> coins[k].amount > 0
  }

  /** Applies one message dispatched by `contract`: a bank send moves coins out of the contract;
      a token-factory mint credits its sender; a burn debits its sender. A zero amount fails the
      chain's stateless message check before any balance is touched. */
  function ExecuteMsg(b: Balances, contract: string, m: CosmosMsg): Result<Balances, ExecError>
  {
    match m
    case Bank(Send(to, coins)) =>
      if !PositiveCoins(coins) then Failure(InvalidCoin)
      else (match SubCoins(b, contract, coins)
       case Failure(e) => Failure(e)
       case Success(b1) => Success(AddCoins(b1, to, coins)))
    case Stargate(MintUrl, MsgMint(coin, sender)) =>
      (match CoinAmount(coin)
       case Failure(e) => Failure(e)
       case Success((denom, n)) =>
         if n == 0 then Failure(InvalidCoin) else Success(Credit(b, sender, denom, n)))
    case Stargate(BurnUrl, MsgBurn(coin, sender)) =>
      (match CoinAmount(coin)
       case Failure(e) => Failure(e)
       case Success((denom, n)) =>
         if n == 0 then Failure(InvalidCoin)
         else if Balance(b, sender, denom) < n then Failure(InsufficientFunds)
         else Success(Debit(b, sender, denom, n)))
    case Stargate(_, _) => Failure(UnsupportedMessage)
  }

  /** Applies the messages of a response in order; the first failure aborts all of them. */
  function Execute(b: Balances, contract: string, msgs: seq<SubMsg>): Result<Balances, ExecError>
    decreases |msgs|
  {
    if |msgs| == 0 then Success(b)
    else match ExecuteMsg(b, contract, msgs[0].msg)
      case Failure(e) => Failure(e)
      case Success(b1) => Execute(b1, contract, msgs[1..])
  }

  /** A send of one coin succeeds iff the amount is positive and the sender holds it, and then
      moves exactly that amount. */
  lemma SendOneCoin(b: Balances, from: string, to: string, c: Coin)
    ensures ExecuteMsg(b, from, Bank(Send(to, [c]))).Success?
        <==> c.amount > 0 && Balance(b, from, c.denom) >= c.amount
    ensures ExecuteMsg(b, from, Bank(Send(to, [c]))).Success? ==>
      forall a, d :: Balance(ExecuteMsg(b, from, Bank(Send(to, [c]))).value, a, d)
        == Balance(b, a, d) - Delta(from, c.denom, c.amount, a, d) + Delta(to, c.denom, c.amount, a, d)
  {
    if c.amount > 0 && Balance(b, from, c.denom) >= c.amount {
      var b1 := Debit(b, from, c.denom, c.amount);
      assert PositiveCoins([c]);
      assert [c][1..] == [];
      assert SubCoins(b, from, [c]) == Success(b1);
      assert AddCoins(b1, to, [c]) == Credit(b1, to, c.denom, c.amount);
    }
  }

  /** Executing a transfer succeeds iff the amount is positive and the contract holds it; it then
      moves exactly `amount` from the contract to `to` and changes no other balance. */
  lemma TransferEffect(den: OsmosisDenom, to: string, amount: Uint128, b: Balances, contract: string)
    ensures var r := Execute(b, contract, Transfer(den, to, amount).value.messages);
      && (r.Success? <==> amount > 0 && Balance(b, contract, den.denom) >= amount)
      && (r.Success? ==>
            forall a, d :: (Balance(r.value, a, d)
              == Balance(b, a, d) - Delta(contract, den.denom, amount, a, d) + Delta(to, den.denom, amount, a, d)))
  {
    var msgs := Transfer(den, to, amount).value.messages;
    var c := Coin(den.denom, amount);
    SendOneCoin(b, contract, to, c);
    assert msgs[1..] == [];
  }

  /** Executing a mint signed by the contract itself succeeds iff the amount is positive and,
      whoever the recipient is, its only net effect is `amount` more of the denom for the
      recipient. */
  lemma MintEffect(den: OsmosisDenom, contract: string, recipient: string, amount: Uint128, b: Balances)
    ensures var r := Execute(b, contract, Mint(den, contract, recipient, amount).value.messages);
      && (r.Success? <==> amount > 0)
      && (r.Success? ==>
            forall a, d :: Balance(r.value, a, d) == Balance(b, a, d) + Delta(recipient, den.denom, amount, a, d))
  {
    var msgs := Mint(den, contract, recipient, amount).value.messages;
    var coin := msgs[0].msg.value.amount;
    assert CoinAmount(coin) == Success((den.denom, amount as nat));
    if amount > 0 {
      var b1 := Credit(b, contract, den.denom, amount);
      assert ExecuteMsg(b, contract, msgs[0].msg) == Success(b1);
      assert Execute(b, contract, msgs) == Execute(b1, contract, msgs[1..]);
      assert msgs[1..][0] == msgs[1];
      assert msgs[1..][1..] == [];
      SendOneCoin(b1, contract, recipient, Coin(den.denom, amount));
      var b2 := ExecuteMsg(b1, contract, msgs[1].msg).value;
      assert Execute(b1, contract, msgs[1..]) == Success(b2);
    } else {
      assert ExecuteMsg(b, contract, msgs[0].msg) == Failure(InvalidCoin);
    }
  }

  /** Executing a burn succeeds iff the amount is positive and the sender holds it; it then
      removes exactly `amount` from the sender and changes no other balance. */
  lemma BurnEffect(den: OsmosisDenom, sender: string, amount: Uint128, b: Balances, contract: string)
    ensures var r := Execute(b, contract, Burn(den, sender, amount).value.messages);
      && (r.Success? <==> amount > 0 && Balance(b, sender, den.denom) >= amount)
      && (r.Success? ==> forall a, d :: Balance(r.value, a, d) == Balance(b, a, d) - Delta(sender, den.denom, amount, a, d))
  {
    var msgs := Burn(den, sender, amount).value.messages;
    assert msgs[1..] == [];
  }

  /** All three builders emit a zero amount unchanged, and the chain rejects every such response
      as an invalid coin, whatever the balances. */
  lemma ZeroAmountAborts(den: OsmosisDenom, contract: string, sender: string, to: string, b: Balances)
    ensures Execute(b, contract, Transfer(den, to, 0).value.messages) == Failure(InvalidCoin)
    ensures Execute(b, contract, Mint(den, sender, to, 0).value.messages) == Failure(InvalidCoin)
    ensures Execute(b, contract, Burn(den, sender, 0).value.messages) == Failure(InvalidCoin)
  {
    var mint := Mint(den, sender, to, 0).value.messages;
    assert CoinAmount(mint[0].msg.value.amount) == Success((den.denom, 0));
    var burn := Burn(den, sender, 0).value.messages;
    assert CoinAmount(burn[0].msg.value.amount) == Success((den.denom, 0));
  }

  /** Burning what was just minted to the contract leaves every balance as it was; with a zero
      amount the mint itself is already rejected. */
  lemma MintThenBurnRestores(den: OsmosisDenom, contract: string, amount: Uint128, b: Balances)
    ensures var r1 := Execute(b, contract, Mint(den, contract, contract, amount).value.messages);
      && (r1.Success? <==> amount > 0)
      && (r1.Success? ==>
            var r2 := Execute(r1.value, contract, Burn(den, contract, amount).value.messages);
            && r2.Success?
            && forall a, d :: Balance(r2.value, a, d) == Balance(b, a, d))
  {
    MintEffect(den, contract, contract, amount, b);
    if amount > 0 {
      var b1 := Execute(b, contract, Mint(den, contract, contract, amount).value.messages).value;
      BurnEffect(den, contract, amount, b1, contract);
    }
  }
}
