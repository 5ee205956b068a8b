/**
 * The token contracts and the exchange contract as one sequential state machine.
 * Every operation runs to completion or fails with no effect; the caller
 * (`msg.sender`) and the block time are explicit parameters.
 */
module Ledger {
  import opened Types
  import opened Balances
  import opened Settlement

  /** Each deployed token's balances add up to its fixed supply. */
  ghost predicate SupplyFixed(deployed: map<Addr, TokenInfo>, books: map<Addr, Book>) {
    && books.Keys == deployed.Keys
    && forall t {:trigger Sum(books[t])} :: t in deployed ==> Sum(books[t]) == deployed[t].totalSupply
  }

  /** The exchange never grants an allowance. */
  ghost predicate NeverApproves(allowance: map<(Addr, Addr, Addr), nat>, exchange: Addr) {
    forall k :: k in allowance && k.1 == exchange ==> allowance[k] == 0
  }

  /** Token by token, the exchange holds at least what it owes its users. */
  ghost predicate Solvent(custody: Custody, books: map<Addr, Book>, exchange: Addr) {
    forall t {:trigger Sum(custody[t])} :: t in custody ==> Sum(custody[t]) <= Get(books, t, exchange)
  }

  /** Order ids run 1..orderCount; cancelled and filled are exclusive marks on existing orders. */
  ghost predicate OrderTable(orders: map<nat, Order>, orderCount: nat, cancelled: set<nat>, filled: set<nat>) {
    && (forall i :: i in orders <==> 1 <= i <= orderCount)
    && (forall i :: i in orders ==> orders[i].id == i)
    && cancelled <= orders.Keys
    && filled <= orders.Keys
    && cancelled !! filled
  }

  /** A newly minted token holds its whole supply at the deployer. */
  lemma MintKeepsSupply(deployed: map<Addr, TokenInfo>, books: map<Addr, Book>, token: Addr, info: TokenInfo, deployer: Addr)
    requires SupplyFixed(deployed, books) && token !in deployed
    ensures SupplyFixed(deployed[token := info], books[token := Mint(deployer, info.totalSupply)])
  {
    MintHoldsAll(deployer, info.totalSupply);
  }

  /** A token transfer inside one token's book keeps every supply fixed. */
  lemma MoveKeepsSupply(deployed: map<Addr, TokenInfo>, books: map<Addr, Book>, token: Addr, from: Addr, to: Addr, amount: nat)
    requires SupplyFixed(deployed, books) && token in deployed && amount <= Bal(books[token], from)
    ensures SupplyFixed(deployed, books[token := Move(books[token], from, to, amount)])
  {
    MoveConserves(books[token], from, to, amount);
  }

  /** A token transfer that does not take from the exchange keeps it solvent. */
  lemma MoveKeepsSolvent(custody: Custody, books: map<Addr, Book>, exchange: Addr, token: Addr, from: Addr, to: Addr, amount: nat)
    requires Solvent(custody, books, exchange) && token in books && amount <= Bal(books[token], from)
    requires from == exchange ==> amount == 0 || to == exchange
    ensures Solvent(custody, books[token := Move(books[token], from, to, amount)], exchange)
  {
    var books' := books[token := Move(books[token], from, to, amount)];
    MoveEffect(books[token], from, to, amount);
    forall t | t in custody
      ensures Sum(custody[t]) <= Get(books', t, exchange)
    {
      assert Get(books, t, exchange) <= Get(books', t, exchange);
    }
  }

  /** A deposit credits custody by exactly what the exchange received. */
  lemma DepositKeepsSolvent(custody: Custody, books: map<Addr, Book>, exchange: Addr, token: Addr, user: Addr, amount: nat)
    requires Solvent(custody, books, exchange) && token in books && amount <= Bal(books[token], user)
    requires user == exchange ==> amount == 0
    ensures Solvent(CreditAt(custody, token, user, amount), books[token := Move(books[token], user, exchange, amount)], exchange)
  {
    var custody', books' := CreditAt(custody, token, user, amount), books[token := Move(books[token], user, exchange, amount)];
    MoveEffect(books[token], user, exchange, amount);
    CreditAtSum(custody, token, user, amount);
    forall t | t in custody'
      ensures Sum(custody'[t]) <= Get(books', t, exchange)
    {
      assert custody'[t] == Row(custody', t);
      if t != token {
        assert Get(books', t, exchange) == Get(books, t, exchange);
        assert Row(custody', t) == Row(custody, t);
      } else {
        assert Sum(Row(custody', t)) == Sum(Row(custody, t)) + amount;
        assert Sum(Row(custody, t)) <= Get(books, t, exchange) by {
          if t !in custody { assert Row(custody, t) == map[]; }
        }
      }
    }
  }

  /** A withdrawal debits custody by exactly what the exchange pays out. */
  lemma WithdrawKeepsSolvent(custody: Custody, books: map<Addr, Book>, exchange: Addr, token: Addr, user: Addr, amount: nat)
    requires Solvent(custody, books, exchange) && token in books && amount <= Get(custody, token, user)
    ensures amount <= Bal(books[token], exchange)
    ensures Solvent(DebitAt(custody, token, user, amount), books[token := Move(books[token], exchange, user, amount)], exchange)
  {
    BalAtMostSum(Row(custody, token), user);
    var custody', books' := DebitAt(custody, token, user, amount), books[token := Move(books[token], exchange, user, amount)];
    MoveEffect(books[token], exchange, user, amount);
    DebitAtSum(custody, token, user, amount);
    forall t | t in custody'
      ensures Sum(custody'[t]) <= Get(books', t, exchange)
    {
      assert custody'[t] == Row(custody', t);
      if t != token {
        assert Get(books', t, exchange) == Get(books, t, exchange);
        assert Row(custody', t) == Row(custody, t);
      } else {
        assert Sum(Row(custody', t)) + amount == Sum(Row(custody, t));
      }
    }
  }

  /** A fill moves custody between users without changing any token's total. */
  lemma SettleKeepsSolvent(custody: Custody, books: map<Addr, Book>, exchange: Addr, o: Order, filler: Addr, feeAccount: Addr, feePercent: nat)
    requires Solvent(custody, books, exchange)
    requires Settle(custody, o, filler, feeAccount, feePercent).Some?
    ensures Solvent(Settle(custody, o, filler, feeAccount, feePercent).value, books, exchange)
  {
    var custody' := Settle(custody, o, filler, feeAccount, feePercent).value;
    forall t | t in custody'
      ensures Sum(custody'[t]) <= Get(books, t, exchange)
    {
      assert custody'[t] == Row(custody', t);
      SettleConserves(custody, o, filler, feeAccount, feePercent, t);
      if t !in custody { assert Row(custody, t) == map[]; }
    }
  }

  /** A new order takes the next id. */
  lemma PlaceKeepsTable(orders: map<nat, Order>, orderCount: nat, cancelled: set<nat>, filled: set<nat>, o: Order)
    requires OrderTable(orders, orderCount, cancelled, filled) && o.id == orderCount + 1
    ensures OrderTable(orders[o.id := o], orderCount + 1, cancelled, filled)
  {
  }

  /** Marking an open order cancelled or filled keeps the marks exclusive. */
  lemma MarkKeepsTable(orders: map<nat, Order>, orderCount: nat, cancelled: set<nat>, filled: set<nat>, id: nat)
    requires OrderTable(orders, orderCount, cancelled, filled) && id in orders && id !in cancelled && id !in filled
    ensures OrderTable(orders, orderCount, cancelled + {id}, filled)
    ensures OrderTable(orders, orderCount, cancelled, filled + {id})
  {
  }

  class Ledger {
    /** The exchange contract's own address, which holds every deposited token. */
    const exchange: Addr
    const feeAccount: Addr
    const feePercent: nat

    // Token side: one entry per deployed token contract, keyed by its address.
    var deployed: map<Addr, TokenInfo>
    var balances: map<Addr, Book>
    /** Remaining allowance, keyed by (token, owner, spender). */
    var allowance: map<(Addr, Addr, Addr), nat>

    // Exchange side.
    var custody: Custody
    var orders: map<nat, Order>
    var orderCount: nat
    var cancelled: set<nat>
    var filled: set<nat>

    /** Every event emitted so far, oldest first. */
    var log: seq<Event>

    /** `balanceOf(owner)` of token `token`: the stored balance, 0 when there is none. */
    function BalanceOf(token: Addr, owner: Addr): (r: nat)
      reads this
      ensures token in balances && owner in balances[token] ==> r == balances[token][owner]
      ensures !(token in balances && owner in balances[token]) ==> r == 0
    {
      Get(balances, token, owner)
    }

    /** `allowance(owner, spender)` of token `token`: the stored allowance, 0 when there is none. */
    function Allowance(token: Addr, owner: Addr, spender: Addr): (r: nat)
      reads this
      ensures (token, owner, spender) in allowance ==> r == allowance[(token, owner, spender)]
      ensures (token, owner, spender) !in allowance ==> r == 0
    {
      if (token, owner, spender) in allowance then allowance[(token, owner, spender)] else 0
    }

    /** The exchange's `balanceOf(token, user)` and `tokens(token, user)`: what it holds for `user`, 0 when nothing is stored. */
    function Custodied(token: Addr, user: Addr): (r: nat)
      reads this
      ensures token in custody && user in custody[token] ==> r == custody[token][user]
      ensures !(token in custody && user in custody[token]) ==> r == 0
    {
      Get(custody, token, user)
    }

    ghost predicate Valid()
      reads this
    {
      && exchange != ZeroAddress
      && SupplyFixed(deployed, balances)
      && NeverApproves(allowance, exchange)
      && Solvent(custody, balances, exchange)
      && OrderTable(orders, orderCount, cancelled, filled)
    }

    twostate predicate TokensUnchanged()
      reads this
    {
      deployed == old(deployed) && balances == old(balances) && allowance == old(allowance)
    }

    twostate predicate ExchangeUnchanged()
      reads this
    {
      && custody == old(custody)
      && orders == old(orders)
      && orderCount == old(orderCount)
      && cancelled == old(cancelled)
      && filled == old(filled)
    }

    /** Deploys the exchange with its fee configuration, fixed from then on. */
    constructor (exchange: Addr, feeAccount: Addr, feePercent: nat)
      requires exchange != ZeroAddress
      ensures Valid()
      ensures this.exchange == exchange && this.feeAccount == feeAccount && this.feePercent == feePercent
      ensures deployed == map[] && balances == map[] && allowance == map[]
      ensures custody == map[] && orders == map[] && orderCount == 0 && cancelled == {} && filled == {}
      ensures log == []
    {
      this.exchange := exchange;
      this.feeAccount := feeAccount;
      this.feePercent := feePercent;
      deployed, balances, allowance := map[], map[], map[];
      custody, orders, orderCount, cancelled, filled := map[], map[], 0, {}, {};
      log := [];
      new;
      assert forall t :: Row(custody, t) == map[];
    }

    /**
     * Deploys a token at the fresh address `token`: `supply` whole tokens with 18
     * decimals, all minted to `deployer`.
     */
    method DeployToken(token: Addr, deployer: Addr, name: string, symbol: string, supply: nat)
      requires Valid()
      requires token != ZeroAddress && token != exchange && token !in deployed
      modifies this
      ensures Valid()
      ensures deployed == old(deployed)[token := TokenInfo(name, symbol, Decimals, Tokens(supply))]
      ensures balances == old(balances)[token := Mint(deployer, Tokens(supply))]
      ensures allowance == old(allowance) && ExchangeUnchanged() && log == old(log)
    {
      var info := TokenInfo(name, symbol, Decimals, Tokens(supply));
      MintKeepsSupply(deployed, balances, token, info, deployer);
      assert BalanceOf(token, exchange) == 0;
      assert Sum(Row(custody, token)) == 0;
      deployed := deployed[token := TokenInfo(name, symbol, Decimals, Tokens(supply))];
      balances := balances[token := Mint(deployer, Tokens(supply))];
    }

    /** `transfer(to, amount)` of token `token`, sent by `sender`. */
    method Transfer(token: Addr, sender: Addr, to: Addr, amount: nat) returns (s: Outcome)
      requires Valid()
      requires sender != exchange  // the exchange's tokens move only through its own code
      modifies this
      ensures Valid()
      ensures s == if token !in old(deployed) then Failure(NoSuchToken)
                   else if old(BalanceOf(token, sender)) < amount then Failure(InsufficientBalance)
                   else if to == ZeroAddress then Failure(InvalidRecipient)
                   else Success
      ensures s.Failure? ==> unchanged(this)
      ensures s.Success? ==>
        && balances == old(balances)[token := Move(old(balances[token]), sender, to, amount)]
        && deployed == old(deployed) && allowance == old(allowance) && ExchangeUnchanged()
        && log == old(log) + [Event.Transfer(token, sender, to, amount)]
    {
      if token !in deployed {
        return Failure(NoSuchToken);
      }
      if BalanceOf(token, sender) < amount {
        return Failure(InsufficientBalance);
      }
      if to == ZeroAddress {
        return Failure(InvalidRecipient);
      }
      MoveKeepsSupply(deployed, balances, token, sender, to, amount);
      MoveKeepsSolvent(custody, balances, exchange, token, sender, to, amount);
      balances := balances[token := Move(balances[token], sender, to, amount)];
      log := log + [Event.Transfer(token, sender, to, amount)];
      s := Success;
    }

    /** `approve(spender, amount)` of token `token`, sent by `owner`: overwrites the allowance. */
    method Approve(token: Addr, owner: Addr, spender: Addr, amount: nat) returns (s: Outcome)
      requires Valid()
      requires owner != exchange  // the exchange never approves a spender
      modifies this
      ensures Valid()
      ensures s == if token !in old(deployed) then Failure(NoSuchToken)
                   else if spender == ZeroAddress then Failure(InvalidRecipient)
                   else Success
      ensures s.Failure? ==> unchanged(this)
      ensures s.Success? ==>
        && allowance == old(allowance)[(token, owner, spender) := amount]
        && deployed == old(deployed) && balances == old(balances) && ExchangeUnchanged()
        && log == old(log) + [Event.Approval(token, owner, spender, amount)]
    {
      if token !in deployed {
        return Failure(NoSuchToken);
      }
      if spender == ZeroAddress {
        return Failure(InvalidRecipient);
      }
      allowance := allowance[(token, owner, spender) := amount];
      log := log + [Event.Approval(token, owner, spender, amount)];
      s := Success;
    }

    /** `transferFrom(from, to, amount)` of token `token`, sent by `spender`. */
    method TransferFrom(token: Addr, spender: Addr, from: Addr, to: Addr, amount: nat) returns (s: Outcome)
      requires Valid()
      modifies this
      ensures Valid()
      ensures s == if token !in old(deployed) then Failure(NoSuchToken)
                   else if old(BalanceOf(token, from)) < amount then Failure(InsufficientBalance)
                   else if old(Allowance(token, from, spender)) < amount then Failure(InsufficientAllowance)
                   else if to == ZeroAddress then Failure(InvalidRecipient)
                   else Success
      ensures s.Failure? ==> unchanged(this)
      ensures s.Success? ==>
        && allowance == old(allowance)[(token, from, spender) := old(Allowance(token, from, spender)) - amount]
        && balances == old(balances)[token := Move(old(balances[token]), from, to, amount)]
        && deployed == old(deployed) && ExchangeUnchanged()
        && log == old(log) + [Event.Transfer(token, from, to, amount)]
    {
      if token !in deployed {
        return Failure(NoSuchToken);
      }
      if BalanceOf(token, from) < amount {
        return Failure(InsufficientBalance);
      }
      var allowed := Allowance(token, from, spender);
      if allowed < amount {
        return Failure(InsufficientAllowance);
      }
      if to == ZeroAddress {
        return Failure(InvalidRecipient);
      }
      assert from == exchange ==> allowed == 0;
      MoveKeepsSupply(deployed, balances, token, from, to, amount);
      MoveKeepsSolvent(custody, balances, exchange, token, from, to, amount);
      allowance := allowance[(token, from, spender) := allowed - amount];
      balances := balances[token := Move(balances[token], from, to, amount)];
      log := log + [Event.Transfer(token, from, to, amount)];
      s := Success;
    }

    /**
     * `depositToken(token, amount)` sent by `user`: the exchange pulls `amount` with
     * the token's `transferFrom` and credits it to `user`'s custody. A failure of
     * the token is reported unchanged.
     */
    method DepositToken(token: Addr, user: Addr, amount: nat) returns (s: Outcome)
      requires Valid()
      modifies this
      ensures Valid()
      ensures s == if token !in old(deployed) then Failure(NoSuchToken)
                   else if old(BalanceOf(token, user)) < amount then Failure(InsufficientBalance)
                   else if old(Allowance(token, user, exchange)) < amount then Failure(InsufficientAllowance)
                   else Success
      ensures s.Failure? ==> unchanged(this)
      ensures s.Success? ==>
        && allowance == old(allowance)[(token, user, exchange) := old(Allowance(token, user, exchange)) - amount]
        && balances == old(balances)[token := Move(old(balances[token]), user, exchange, amount)]
        && custody == CreditAt(old(custody), token, user, amount)
        && deployed == old(deployed)
        && orders == old(orders) && orderCount == old(orderCount)
        && cancelled == old(cancelled) && filled == old(filled)
        && log == old(log) + [Event.Transfer(token, user, exchange, amount),
                              Event.Deposit(token, user, amount, old(Custodied(token, user)) + amount)]
    {
      ghost var custody0, balances0 := custody, balances;
      assert user == exchange ==> Allowance(token, user, exchange) == 0;
      s := TransferFrom(token, exchange, user, exchange, amount);
      if s.Success? {
        DepositKeepsSolvent(custody0, balances0, exchange, token, user, amount);
        custody := CreditAt(custody, token, user, amount);
        log := log + [Event.Deposit(token, user, amount, Custodied(token, user))];
      }
    }

    /**
     * `withdrawToken(token, amount)` sent by `user`: debits `user`'s custody and pays
     * `amount` out with the token's `transfer`, the exchange being the sender.
     */
    method WithdrawToken(token: Addr, user: Addr, amount: nat) returns (s: Outcome)
      requires Valid()
      modifies this
      ensures Valid()
      ensures s == if old(Custodied(token, user)) < amount then Failure(InsufficientBalance)
                   else if token !in old(deployed) then Failure(NoSuchToken)
                   else if user == ZeroAddress then Failure(InvalidRecipient)
                   else Success
      ensures s.Failure? ==> unchanged(this)
      ensures s.Success? ==>
        && custody == DebitAt(old(custody), token, user, amount)
        && amount <= old(BalanceOf(token, exchange))
        && balances == old(balances)[token := Move(old(balances[token]), exchange, user, amount)]
        && deployed == old(deployed) && allowance == old(allowance)
        && orders == old(orders) && orderCount == old(orderCount)
        && cancelled == old(cancelled) && filled == old(filled)
        && log == old(log) + [Event.Transfer(token, exchange, user, amount),
                              Event.Withdraw(token, user, amount, old(Custodied(token, user)) - amount)]
    {
      if Custodied(token, user) < amount {
        return Failure(InsufficientBalance);
      }
      if token !in deployed {
        return Failure(NoSuchToken);
      }
      if user == ZeroAddress {
        return Failure(InvalidRecipient);
      }
      // solvency: the exchange holds at least what it owes this user
      WithdrawKeepsSolvent(custody, balances, exchange, token, user, amount);
      MoveKeepsSupply(deployed, balances, token, exchange, user, amount);
      custody := DebitAt(custody, token, user, amount);
      balances := balances[token := Move(balances[token], exchange, user, amount)];
      log := log + [Event.Transfer(token, exchange, user, amount),
                    Event.Withdraw(token, user, amount, Custodied(token, user))];
      s := Success;
    }

    /**
     * `makeOrder(tokenGet, amountGet, tokenGive, amountGive)` sent by `user` at time
     * `now`. The order must be backed by `user`'s custody of `tokenGive`; no funds move.
     * On success `id` is the new order's id, otherwise 0.
     */
    method MakeOrder(user: Addr, tokenGet: Addr, amountGet: nat, tokenGive: Addr, amountGive: nat, now: nat)
      returns (s: Outcome, id: nat)
      requires Valid()
      modifies this
      ensures Valid()
      ensures s == if old(Custodied(tokenGive, user)) < amountGive then Failure(InsufficientBalance) else Success
      ensures s.Failure? ==> unchanged(this) && id == 0
      ensures s.Success? ==>
        && id == old(orderCount) + 1 && orderCount == id
        && orders == old(orders)[id := Order(id, user, tokenGet, amountGet, tokenGive, amountGive, now)]
        && TokensUnchanged() && custody == old(custody)
        && cancelled == old(cancelled) && filled == old(filled)
        && log == old(log) + [Event.Placed(Order(id, user, tokenGet, amountGet, tokenGive, amountGive, now))]
    {
      if Custodied(tokenGive, user) < amountGive {
        return Failure(InsufficientBalance), 0;
      }
      id := orderCount + 1;
      var order := Order(id, user, tokenGet, amountGet, tokenGive, amountGive, now);
      PlaceKeepsTable(orders, orderCount, cancelled, filled, order);
      orderCount := id;
      orders := orders[id := order];
      log := log + [Event.Placed(order)];
      s := Success;
    }

    /** `cancelOrder(id)` sent by `user` at time `now`: only the creator, only while open. */
    method CancelOrder(user: Addr, id: nat, now: nat) returns (s: Outcome)
      requires Valid()
      modifies this
      ensures Valid()
      ensures s == if id !in old(orders) then Failure(InvalidOrder)
                   else if old(orders[id].user) != user then Failure(Unauthorized)
                   else if id in old(cancelled) || id in old(filled) then Failure(OrderNotOpen)
                   else Success
      ensures s.Failure? ==> unchanged(this)
      ensures s.Success? ==>
        && cancelled == old(cancelled) + {id}
        && TokensUnchanged() && custody == old(custody)
        && orders == old(orders) && orderCount == old(orderCount) && filled == old(filled)
        && log == old(log) + [Event.Cancel(orders[id], now)]
    {
      if id !in orders {
        return Failure(InvalidOrder);
      }
      if orders[id].user != user {
        return Failure(Unauthorized);
      }
      if id in cancelled || id in filled {
        return Failure(OrderNotOpen);
      }
      MarkKeepsTable(orders, orderCount, cancelled, filled, id);
      cancelled := cancelled + {id};
      log := log + [Event.Cancel(orders[id], now)];
      s := Success;
    }

    /**
     * `fillOrder(id)` sent by `user` at time `now`: settles the order between its
     * creator and `user`, charging `user` the fee, and marks it filled.
     */
    method FillOrder(user: Addr, id: nat, now: nat) returns (s: Outcome)
      requires Valid()
      modifies this
      ensures Valid()
      ensures s == if !(1 <= id <= old(orderCount)) then Failure(InvalidOrder)
                   else if id in old(filled) then Failure(OrderAlreadyFilled)
                   else if id in old(cancelled) then Failure(OrderCancelled)
                   else if Settle(old(custody), old(orders[id]), user, feeAccount, feePercent).None?
                     then Failure(InsufficientBalance)
                   else Success
      ensures s.Failure? ==> unchanged(this)
      ensures s.Success? ==>
        && custody == Settle(old(custody), old(orders[id]), user, feeAccount, feePercent).value
        && filled == old(filled) + {id}
        && TokensUnchanged()
        && orders == old(orders) && orderCount == old(orderCount) && cancelled == old(cancelled)
        && log == old(log) + [Event.Trade(old(orders[id]), user, now)]
    {
      if !(1 <= id <= orderCount) {
        return Failure(InvalidOrder);
      }
      if id in filled {
        return Failure(OrderAlreadyFilled);
      }
      if id in cancelled {
        return Failure(OrderCancelled);
      }
      var order := orders[id];
      var settled := Settle(custody, order, user, feeAccount, feePercent);
      if settled.None? {
        return Failure(InsufficientBalance);
      }
      SettleKeepsSolvent(custody, balances, exchange, order, user, feeAccount, feePercent);
      MarkKeepsTable(orders, orderCount, cancelled, filled, id);
      custody := settled.value;
      filled := filled + {id};
      log := log + [Event.Trade(order, user, now)];
      s := Success;
    }
  }
}
