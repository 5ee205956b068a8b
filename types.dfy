/** Vocabulary shared by the token ledger and the exchange ledger. */
module Types {

  /** Accounts and contracts share one address space. */
  type Addr = nat

  /** The null address; no transfer may credit it. */
  const ZeroAddress: Addr := 0

  /** Every token carries 18 implied decimal places. */
  const Decimals: nat := 18

  /** 10^18, the number of smallest units in one whole token. */
  const Unit: nat := 1_000_000_000_000_000_000

  /** `tokens(n)` of the test suites: n whole tokens in smallest units. */
  function Tokens(n: nat): (r: nat)
    ensures n > 0 ==> r >= Unit
    ensures r / Unit == n && r % Unit == 0
  {
    n * Unit
  }

  /** The failure kinds a caller can tell apart. */
  datatype Error =
    | InsufficientBalance
    | InsufficientAllowance
    | InvalidRecipient
    | NoSuchToken
    | InvalidOrder
    | Unauthorized
    | OrderNotOpen
    | OrderAlreadyFilled
    | OrderCancelled

  /** What a state-changing operation reports; a failure leaves the state as it was. */
  datatype Outcome = Success | Failure(error: Error)

  datatype Option<T> = None | Some(value: T)

  /** Static metadata of one deployed token. */
  datatype TokenInfo = TokenInfo(name: string, symbol: string, decimals: nat, totalSupply: nat)

  /** An entry of the exchange's order table. */
  datatype Order = Order(
    id: nat,
    user: Addr,
    tokenGet: Addr,
    amountGet: nat,
    tokenGive: Addr,
    amountGive: nat,
    timestamp: nat)

  /**
   * The append-only event log read by off-chain consumers. `Placed` is the exchange's Order event.
   * `Transfer` and `Approval` carry the address of the token that emits them.
   */
  datatype Event =
    | Transfer(token: Addr, from: Addr, to: Addr, value: nat)
    | Approval(token: Addr, owner: Addr, spender: Addr, value: nat)
    | Deposit(token: Addr, user: Addr, amount: nat, balance: nat)
    | Withdraw(token: Addr, user: Addr, amount: nat, balance: nat)
    | Placed(order: Order)
    | Cancel(order: Order, timestamp: nat)
    | Trade(order: Order, filler: Addr, timestamp: nat)
}
