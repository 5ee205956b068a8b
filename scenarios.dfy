/**
 * The test suites' scenarios replayed on the model: each method builds a fresh
 * ledger, runs the suite's transactions and states the values the suite checks.
 */
module Scenarios {
  import opened Types
  import opened Balances
  import opened Settlement
  import opened Ledger

  // The suites' signers and contracts, as distinct addresses.
  const Deployer: Addr := 1
  const FeeAccount: Addr := 2
  const User1: Addr := 3
  const User2: Addr := 4
  const Token1: Addr := 10
  const Token2: Addr := 11
  const ExchangeAt: Addr := 20
  const FeePercent: nat := 10

  /**
   * The common start of the exchange suite: both tokens deployed with a million
   * whole tokens each at the deployer, and 100 DAPP handed to user1.
   */
  method Start() returns (l: Ledger)
    ensures fresh(l) && l.Valid()
    ensures l.exchange == ExchangeAt && l.feeAccount == FeeAccount && l.feePercent == FeePercent
    ensures Token1 in l.deployed && Token2 in l.deployed
    ensures l.BalanceOf(Token1, User1) == Tokens(100) && l.BalanceOf(Token1, ExchangeAt) == 0
    ensures l.BalanceOf(Token2, Deployer) == Tokens(1000000) && l.BalanceOf(Token2, User2) == 0
    ensures l.BalanceOf(Token2, ExchangeAt) == 0
    ensures l.allowance == map[] && l.custody == map[]
    ensures l.orders == map[] && l.orderCount == 0 && l.cancelled == {} && l.filled == {}
  {
    l := new Ledger(ExchangeAt, FeeAccount, FeePercent);
    l.DeployToken(Token1, Deployer, "Dapp University", "DAPP", 1000000);
    l.DeployToken(Token2, Deployer, "Mock Dai", "mDAI", 1000000);
    var s := l.Transfer(Token1, Deployer, User1, Tokens(100));
  }

  /** A deployed token reports its metadata and starts with the whole supply at the deployer. */
  method TokenDeployment() returns (info: TokenInfo, deployerBalance: nat, otherBalance: nat)
    ensures info == TokenInfo("Dapp University", "DAPP", 18, 1_000_000_000_000_000_000_000_000)
    ensures deployerBalance == info.totalSupply && otherBalance == 0
  {
    var l := new Ledger(ExchangeAt, FeeAccount, FeePercent);
    l.DeployToken(Token1, Deployer, "Dapp University", "DAPP", 1000000);
    info := l.deployed[Token1];
    deployerBalance := l.BalanceOf(Token1, Deployer);
    otherBalance := l.BalanceOf(Token1, User1);
  }

  /** Sending 100 tokens leaves 999,900 with the deployer and emits one Transfer event. */
  method SendTokens() returns (s: Outcome, deployerBalance: nat, receiverBalance: nat, events: seq<Event>)
    ensures s == Success
    ensures deployerBalance == Tokens(999900) && receiverBalance == Tokens(100)
    ensures events == [Event.Transfer(Token1, Deployer, User1, Tokens(100))]
  {
    var l := new Ledger(ExchangeAt, FeeAccount, FeePercent);
    l.DeployToken(Token1, Deployer, "Dapp University", "DAPP", 1000000);
    s := l.Transfer(Token1, Deployer, User1, Tokens(100));
    deployerBalance := l.BalanceOf(Token1, Deployer);
    receiverBalance := l.BalanceOf(Token1, User1);
    events := l.log;
  }

  /** Sending more than the balance, or to the zero address, is rejected. */
  method SendTokensFails() returns (tooMuch: Outcome, toZero: Outcome, deployerBalance: nat)
    ensures tooMuch == Failure(InsufficientBalance)
    ensures toZero == Failure(InvalidRecipient)
    ensures deployerBalance == Tokens(1000000)
  {
    var l := new Ledger(ExchangeAt, FeeAccount, FeePercent);
    l.DeployToken(Token1, Deployer, "Dapp University", "DAPP", 1000000);
    tooMuch := l.Transfer(Token1, Deployer, User1, Tokens(1000000000));
    toZero := l.Transfer(Token1, Deployer, ZeroAddress, Tokens(100));
    deployerBalance := l.BalanceOf(Token1, Deployer);
  }

  /** The exchange keeps the fee account and fee percent it was deployed with. */
  method ExchangeDeployment() returns (feeAccount: Addr, feePercent: nat)
    ensures feeAccount == FeeAccount && feePercent == 10
  {
    var l := Start();
    feeAccount, feePercent := l.feeAccount, l.feePercent;
  }

  /** An approved deposit moves 10 DAPP into the exchange and credits user1 with them. */
  method DepositTokens() returns (approved: Outcome, s: Outcome, exchangeHolds: nat, custodied: nat, events: seq<Event>)
    ensures approved == Success && s == Success
    ensures exchangeHolds == Tokens(10) && custodied == Tokens(10)
    ensures events == [Event.Transfer(Token1, User1, ExchangeAt, Tokens(10)), Event.Deposit(Token1, User1, Tokens(10), Tokens(10))]
  {
    var l := Start();
    approved := l.Approve(Token1, User1, ExchangeAt, Tokens(10));
    var before := |l.log|;
    s := l.DepositToken(Token1, User1, Tokens(10));
    exchangeHolds := l.BalanceOf(Token1, ExchangeAt);
    custodied := l.Custodied(Token1, User1);
    events := l.log[before..];
  }

  /** A deposit without an approval is rejected. */
  method DepositFails() returns (s: Outcome, custodied: nat)
    ensures s == Failure(InsufficientAllowance) && custodied == 0
  {
    var l := Start();
    s := l.DepositToken(Token1, User1, Tokens(10));
    custodied := l.Custodied(Token1, User1);
  }

  /** Depositing 10 DAPP and withdrawing them again leaves the exchange empty and user1 whole. */
  method WithdrawTokens() returns (s: Outcome, exchangeHolds: nat, custodied: nat, wallet: nat, events: seq<Event>)
    ensures s == Success
    ensures exchangeHolds == 0 && custodied == 0 && wallet == Tokens(100)
    ensures events == [Event.Transfer(Token1, ExchangeAt, User1, Tokens(10)), Event.Withdraw(Token1, User1, Tokens(10), 0)]
  {
    var l := Start();
    var approved := l.Approve(Token1, User1, ExchangeAt, Tokens(10));
    var deposited := l.DepositToken(Token1, User1, Tokens(10));
    var before := |l.log|;
    s := l.WithdrawToken(Token1, User1, Tokens(10));
    exchangeHolds := l.BalanceOf(Token1, ExchangeAt);
    custodied := l.Custodied(Token1, User1);
    wallet := l.BalanceOf(Token1, User1);
    events := l.log[before..];
  }

  /** A withdrawal without a deposit is rejected. */
  method WithdrawFails() returns (s: Outcome)
    ensures s == Failure(InsufficientBalance)
  {
    var l := Start();
    s := l.WithdrawToken(Token1, User1, Tokens(10));
  }

  /** The exchange reports what a user deposited. */
  method CheckBalances() returns (custodied: nat)
    ensures custodied == Tokens(1)
  {
    var l := Start();
    var approved := l.Approve(Token1, User1, ExchangeAt, Tokens(1));
    var deposited := l.DepositToken(Token1, User1, Tokens(1));
    custodied := l.Custodied(Token1, User1);
  }

  /** A backed order gets id 1 and is announced with its terms and time. */
  method MakeOrders(now: nat) returns (s: Outcome, id: nat, orderCount: nat, events: seq<Event>)
    ensures s == Success && id == 1 && orderCount == 1
    ensures events == [Event.Placed(Order(1, User1, Token2, Tokens(1), Token1, Tokens(1), now))]
  {
    var l := Start();
    var approved := l.Approve(Token1, User1, ExchangeAt, Tokens(1));
    var deposited := l.DepositToken(Token1, User1, Tokens(1));
    var before := |l.log|;
    s, id := l.MakeOrder(User1, Token2, Tokens(1), Token1, Tokens(1), now);
    orderCount := l.orderCount;
    events := l.log[before..];
  }

  /** An order not backed by a deposit is rejected. */
  method MakeOrderFails(now: nat) returns (s: Outcome, orderCount: nat)
    ensures s == Failure(InsufficientBalance) && orderCount == 0
  {
    var l := Start();
    var id;
    s, id := l.MakeOrder(User1, Token2, Tokens(1), Token1, Tokens(1), now);
    orderCount := l.orderCount;
  }

  /** The first deposit of the order suite: 1 DAPP from user1. */
  method FirstDeposit() returns (l: Ledger)
    ensures fresh(l) && l.Valid()
    ensures l.exchange == ExchangeAt && l.feeAccount == FeeAccount && l.feePercent == FeePercent
    ensures Token2 in l.deployed && l.BalanceOf(Token2, Deployer) == Tokens(1000000) && l.BalanceOf(Token2, User2) == 0
    ensures l.Allowance(Token2, User2, ExchangeAt) == 0
    ensures l.Custodied(Token1, User1) == Tokens(1)
    ensures l.Custodied(Token2, User1) == 0 && l.Custodied(Token2, User2) == 0 && l.Custodied(Token2, FeeAccount) == 0
    ensures l.Custodied(Token1, User2) == 0 && l.Custodied(Token1, FeeAccount) == 0
    ensures l.orderCount == 0 && l.cancelled == {} && l.filled == {}
  {
    l := Start();
    var s := l.Approve(Token1, User1, ExchangeAt, Tokens(1));
    s := l.DepositToken(Token1, User1, Tokens(1));
  }

  /** The deposits of the order suite: user1 holds 1 DAPP and user2 holds 2 mDAI at the exchange. */
  method Funded() returns (l: Ledger)
    ensures fresh(l) && l.Valid()
    ensures l.exchange == ExchangeAt && l.feeAccount == FeeAccount && l.feePercent == FeePercent
    ensures l.Custodied(Token1, User1) == Tokens(1) && l.Custodied(Token2, User2) == Tokens(2)
    ensures l.Custodied(Token1, User2) == 0 && l.Custodied(Token1, FeeAccount) == 0
    ensures l.Custodied(Token2, User1) == 0 && l.Custodied(Token2, FeeAccount) == 0
    ensures l.orderCount == 0 && l.cancelled == {} && l.filled == {}
  {
    l := FirstDeposit();
    var s := l.Transfer(Token2, Deployer, User2, Tokens(100));
    s := l.Approve(Token2, User2, ExchangeAt, Tokens(2));
    s := l.DepositToken(Token2, User2, Tokens(2));
  }

  /** The order suite's start: on top of those deposits, user1 places order 1, 1 mDAI for 1 DAPP. */
  method Booked(now: nat) returns (l: Ledger)
    ensures fresh(l) && l.Valid()
    ensures l.exchange == ExchangeAt && l.feeAccount == FeeAccount && l.feePercent == FeePercent
    ensures l.Custodied(Token1, User1) == Tokens(1) && l.Custodied(Token2, User2) == Tokens(2)
    ensures l.Custodied(Token1, User2) == 0 && l.Custodied(Token1, FeeAccount) == 0
    ensures l.Custodied(Token2, User1) == 0 && l.Custodied(Token2, FeeAccount) == 0
    ensures l.orderCount == 1 && l.orders[1] == Order(1, User1, Token2, Tokens(1), Token1, Tokens(1), now)
    ensures l.cancelled == {} && l.filled == {}
  {
    l := Funded();
    var s, id := l.MakeOrder(User1, Token2, Tokens(1), Token1, Tokens(1), now);
  }

  /** The creator cancels order 1; the cancellation is recorded and announced. */
  method CancelOrders(now: nat, later: nat) returns (s: Outcome, cancelled: bool, events: seq<Event>)
    ensures s == Success && cancelled
    ensures events == [Event.Cancel(Order(1, User1, Token2, Tokens(1), Token1, Tokens(1), now), later)]
  {
    var l := Booked(now);
    var before := |l.log|;
    s := l.CancelOrder(User1, 1, later);
    cancelled := 1 in l.cancelled;
    events := l.log[before..];
  }

  /** After a second order by user1, an unknown id and a cancellation by user2 are both rejected. */
  method CancelOrdersFails(now: nat, later: nat) returns (unknown: Outcome, foreign: Outcome)
    ensures unknown == Failure(InvalidOrder) && foreign == Failure(Unauthorized)
  {
    var l := Booked(now);
    var s := l.Approve(Token1, User1, ExchangeAt, Tokens(1));
    s := l.DepositToken(Token1, User1, Tokens(1));
    var id;
    s, id := l.MakeOrder(User1, Token2, Tokens(1), Token1, Tokens(1), now);
    unknown := l.CancelOrder(User1, 99999, later);
    foreign := l.CancelOrder(User2, 1, later);
  }

  /**
   * user2 fills order 1: user1 swaps 1 DAPP for 1 mDAI, and user2 pays the
   * 10% fee, 0.1 mDAI, to the fee account.
   */
  method FillOrders(now: nat, later: nat) returns (s: Outcome, filled: bool, balances: seq<nat>, events: seq<Event>)
    ensures s == Success && filled
    ensures balances == [0, Tokens(1), 0, Tokens(1), Tokens(9) / 10, Tokens(1) / 10]
    ensures events == [Event.Trade(Order(1, User1, Token2, Tokens(1), Token1, Tokens(1), now), User2, later)]
  {
    var l := Booked(now);
    var before := |l.log|;
    SettleBalances(l.custody, l.orders[1], User2, FeeAccount, FeePercent);
    s := l.FillOrder(User2, 1, later);
    filled := 1 in l.filled;
    balances := [l.Custodied(Token1, User1), l.Custodied(Token1, User2), l.Custodied(Token1, FeeAccount),
                 l.Custodied(Token2, User1), l.Custodied(Token2, User2), l.Custodied(Token2, FeeAccount)];
    events := l.log[before..];
  }

  /** Filling an unknown id, filling twice, or filling a cancelled order is rejected. */
  method FillOrdersFails(now: nat, later: nat) returns (unknown: Outcome, refill: Outcome, cancelled: Outcome)
    ensures unknown == Failure(InvalidOrder)
    ensures refill == Failure(OrderAlreadyFilled)
    ensures cancelled == Failure(OrderCancelled)
  {
    var l := Booked(now);
    unknown := l.FillOrder(User2, 99999, later);
    var s := l.FillOrder(User2, 1, later);
    refill := l.FillOrder(User2, 1, later);
    l := Booked(now);
    s := l.CancelOrder(User1, 1, later);
    cancelled := l.FillOrder(User2, 1, later);
  }

  /**
   * On any valid ledger, a deposit the user can afford and has approved, followed by
   * the withdrawal of the same amount, succeeds and returns every token balance and
   * every custodied balance to where it was; only the allowance is spent.
   */
  method DepositWithdrawRoundTrip(l: Ledger, token: Addr, user: Addr, amount: nat) returns (deposited: Outcome, withdrawn: Outcome)
    requires l.Valid()
    requires token in l.deployed && user != ZeroAddress
    requires amount <= l.BalanceOf(token, user) && amount <= l.Allowance(token, user, l.exchange)
    modifies l
    ensures l.Valid()
    ensures deposited == Success && withdrawn == Success
    ensures forall t, a :: l.BalanceOf(t, a) == old(l.BalanceOf(t, a))
    ensures forall t, u :: l.Custodied(t, u) == old(l.Custodied(t, u))
    ensures l.Allowance(token, user, l.exchange) == old(l.Allowance(token, user, l.exchange)) - amount
  {
    ghost var books, custody := l.balances, l.custody;
    deposited := l.DepositToken(token, user, amount);
    CreditThenDebit(custody, token, user, amount);
    withdrawn := l.WithdrawToken(token, user, amount);
    MoveBack(books[token], user, l.exchange, amount);
  }
}
