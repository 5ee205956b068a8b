# Token exchange ledger

This project models a two-contract token exchange in Dafny:

- a fungible **token** with 18 decimals, a fixed supply minted to its deployer, and `transfer`, `approve` and `transferFrom`;
- an **exchange** that holds tokens in custody for its users and keeps an order book.
  Users deposit through the token's `transferFrom`. On withdrawal the exchange, as sender, pays the amount out of its token balance.
  They place orders (`makeOrder`), cancel them (`cancelOrder`) and fill other users' orders (`fillOrder`).
  Each fill charges the filler a fee of `amountGet * feePercent / 100` in the token the order asks for.

The repository's Solidity contracts are not part of this model. Their behaviour comes from the two hardhat suites, `test/Token.js` and `test/Exchange.js`. Where the suites leave a behaviour open, the model takes the decision listed under "Decisions where the suites are silent" below. Every source citation below is to those suites.

## Structure

- `types.dfy` (module `Types`) holds addresses, the `tokens(n)` scaling, error kinds, orders and events. Since all tokens share one log, `Transfer` and `Approval` carry the address of the emitting token, the way every on-chain log entry names its contract.
- `balances.dfy` (module `Balances`) holds one token's balance book and its total (`Sum`, ghost), plus credit, debit and transfer inside a book.
  It proves that a transfer conserves the total and that a transfer and its reverse cancel out.
- `settlement.dfy` (module `Settlement`) holds the exchange's custody `tokens[token][user]`, the fee, and the settlement of a fill (`Settle`).
  Settlement takes these steps in order:
  1. debit the filler `amountGet + fee` of `tokenGet`;
  2. credit the creator `amountGet`;
  3. credit the fee account `fee`;
  4. debit the creator `amountGive` of `tokenGive`;
  5. credit the filler `amountGive`.
- `ledger.dfy` (module `Ledger`) holds one `class Ledger` with every deployed token's books and the exchange's state as fields.
  Each contract function is a method with `modifies this`.
  - Every method reports an `Outcome`, either `Success` or `Failure(error)`.
  - Its `ensures` give the exact outcome for every input.
  - A failure leaves the state untouched. A success gives the whole new state in terms of the old one, with the events appended to `log`.
  - `Valid()` is the class invariant, and every method keeps it:
    - each token's balances add up to its total supply;
    - the exchange never grants an allowance;
    - for every token, the exchange holds at least the total custody it owes;
    - order ids run from 1 to `orderCount`;
    - the cancelled and filled flags are exclusive.
- `scenarios.dfy` (module `Scenarios`) replays each test of the two suites on a fresh ledger and states the values the test expects.
  It also states the deposit–withdraw round trip for any valid ledger.

Holding both contracts in one object makes a deposit or withdrawal one atomic step. A deposit calls the token's `TransferFrom` method on the same ledger. A withdrawal updates the token's books itself, with the token check and recipient check of the token's `transfer` and the same Transfer event. Its balance check cannot fail, because the exchange is solvent (`Ledger.WithdrawKeepsSolvent`). The addresses of token and exchange contracts share the address space of users.

Decisions where the suites are silent:

- `fillOrder` re-checks the creator. Settlement debits the creator's custody with checked subtraction, so a fill fails with `InsufficientBalance`, like a filler who cannot pay, when the creator holds less than `amountGive` of `tokenGive` after the filler's payment has been credited (steps 1 to 3). That payment counts only for an order that trades a token for itself (`Settlement.SettleSucceedsWhen`).
  The filler is checked first, and both checks happen before any state changes.
- `cancelOrder` on an order that is already cancelled or filled fails with `OrderNotOpen`; the suites never cancel an order twice.
- `transfer`, `approve` and `transferFrom` on an address with no token fail with `NoSuchToken`; on the chain such a call reverts. So do `depositToken` and `withdrawToken` when they reach their token call. `withdrawToken` checks custody before that call, so a short custody is reported first as `InsufficientBalance`. `makeOrder` and `fillOrder` never consult a token.
- Block timestamps are a parameter (`now`) of `makeOrder`, `cancelOrder` and `fillOrder`.

## Model

| member | source | states |
|---|---|---|
| `Types.Tokens` | test/Exchange.js:4-6 | `tokens(n)` is an exact multiple of 10^18 whose quotient is n, and is at least one unit for n > 0 |
| `Balances.MintHoldsAll` | test/Token.js:46-52 | the freshly minted book gives the deployer the whole supply, every other address nothing, and adds up to the supply |
| `Balances.MoveEffect` | test/Token.js:62-74 | a transfer debits the sender and credits the receiver by exactly the amount and leaves every other holder unchanged; a self-transfer changes nothing |
| `Balances.MoveConserves` | test/Token.js:69-73 | a transfer leaves the book's total unchanged |
| `Balances.MoveBack` | test/Exchange.js:100-122 | transferring an amount and transferring it back restores every holder's balance |
| `Settlement.CreditThenDebit` | test/Exchange.js:100-122 | crediting custody and debiting the same amount restores every custodied balance |
| `Settlement.Fee` | test/Exchange.js:329-332 | the fee is `amountGet * feePercent / 100` truncated (`100 * fee` within 100 below the product) and never exceeds `amountGet` when the percent is at most 100 |
| `Settlement.Settle` | test/Exchange.js:315-333 | a filler holding less than `amountGet + fee` of `tokenGet` makes the fill fail |
| `Settlement.PayConserves` | test/Exchange.js:329-332 | the filler's payment and the credits to creator and fee account leave every token's custody total unchanged |
| `Settlement.HandConserves` | test/Exchange.js:324-327 | the creator's hand-over to the filler leaves every token's custody total unchanged |
| `Settlement.SettleConserves` | test/Exchange.js:323-333 | a successful fill leaves every token's total custody unchanged |
| `Settlement.SettleSucceedsIff` | test/Exchange.js:315-333 | for two distinct tokens, a fill succeeds exactly when the filler holds `amountGet + fee` of `tokenGet` and the creator holds `amountGive` of `tokenGive` |
| `Settlement.SettleSucceedsWhen` | test/Exchange.js:315-333 | for every order and every choice of parties, a fill succeeds exactly when the filler holds `amountGet + fee` of `tokenGet` and the creator, after the filler's payment is credited, holds `amountGive` of `tokenGive` |
| `Settlement.SettleEffect` | test/Exchange.js:323-333 | for every successful fill, including self-fills, fills involving the fee account and same-token orders, each custodied balance changes by exactly what the fill gives that user minus what it takes |
| `Settlement.SettleBalances` | test/Exchange.js:323-333 | for distinct tokens and parties, a fill moves exactly `amountGet + fee` from the filler, `amountGet` to the creator, `fee` to the fee account, and `amountGive` from creator to filler, and nothing else |
| `Ledger.MintKeepsSupply` | test/Token.js:46-52 | deploying a token keeps every token's balances summing to its supply |
| `Ledger.MoveKeepsSupply` | test/Token.js:62-74 | a transfer keeps every token's balances summing to its supply |
| `Ledger.MoveKeepsSolvent` | test/Exchange.js:66-71 | a token transfer that does not take from the exchange keeps the exchange able to pay out all custody |
| `Ledger.DepositKeepsSolvent` | test/Exchange.js:66-71 | crediting a user's custody by an amount moved from that user to the exchange keeps the exchange solvent |
| `Ledger.WithdrawKeepsSolvent` | test/Exchange.js:117-122 | the exchange holds at least any custodied amount, and a withdrawal keeps it solvent |
| `Ledger.SettleKeepsSolvent` | test/Exchange.js:323-333 | a fill keeps the exchange solvent |
| `Ledger.PlaceKeepsTable` | test/Exchange.js:193-210 | a new order with id `orderCount + 1` keeps ids contiguous from 1 |
| `Ledger.MarkKeepsTable` | test/Exchange.js:265-267 | marking an open order cancelled or filled keeps the two flags exclusive |
| `Ledger.Ledger.BalanceOf` | test/Token.js:50-52 | the token's `balanceOf(owner)` is the stored balance, or 0 when none is stored (also read at test/Token.js:71-72 and test/Exchange.js:68, 119) |
| `Ledger.Ledger.Allowance` | test/Exchange.js:86-90 | the token's `allowance(owner, spender)` is the stored allowance, or 0 when none is stored, so a deposit without approval has none to spend |
| `Ledger.Ledger.Custodied` | test/Exchange.js:67-71 | the exchange's `balanceOf(token, user)` and `tokens(token, user)` are the stored custody, or 0 when none is stored (also read at test/Exchange.js:120-121, 165, 325-332) |
| `Ledger.Ledger.constructor` | test/Exchange.js:32-45 | the exchange starts empty with the given fee account and percent, which are constants |
| `Ledger.Ledger.DeployToken` | test/Token.js:13-52 | a new token has the given name and symbol, 18 decimals, supply × 10^18, and all of it at the deployer |
| `Ledger.Ledger.Transfer` | test/Token.js:56-100 | fails with `InsufficientBalance` or `InvalidRecipient` and no change, else moves the amount and logs Transfer(token, from, to, value) |
| `Ledger.Ledger.Approve` | test/Exchange.js:55-58 | overwrites the allowance with the amount and logs Approval |
| `Ledger.Ledger.TransferFrom` | test/Exchange.js:55-90 | checks balance, then allowance, then recipient; on success spends the allowance, moves the amount and logs Transfer |
| `Ledger.Ledger.DepositToken` | test/Exchange.js:49-93 | pulls the amount with `transferFrom`, passing its failure on, and on success credits custody and logs Transfer then Deposit with the new balance |
| `Ledger.Ledger.WithdrawToken` | test/Exchange.js:95-145 | fails with `InsufficientBalance` when custody is short; else debits custody, pays out of the exchange's balance and logs Transfer then Withdraw with the new balance |
| `Ledger.Ledger.MakeOrder` | test/Exchange.js:171-220 | fails when custody of `tokenGive` is short; else records the order under id `orderCount + 1` with the given terms and time and logs it |
| `Ledger.Ledger.CancelOrder` | test/Exchange.js:258-313 | fails for an unknown id, for anyone but the creator, or for an order no longer open; else sets the cancelled flag and logs Cancel |
| `Ledger.Ledger.FillOrder` | test/Exchange.js:315-375 | fails for an id outside 1..`orderCount`, a filled order, a cancelled order or a short balance; else settles, sets the filled flag and logs Trade |
| `Scenarios.TokenDeployment` | test/Token.js:24-52 | name "Dapp University", symbol "DAPP", 18 decimals, supply 10^24 units, all at the deployer |
| `Scenarios.SendTokens` | test/Token.js:59-85 | after sending 100, the deployer holds 999,900, the receiver 100, and the one event is Transfer(deployer, receiver, 100) |
| `Scenarios.SendTokensFails` | test/Token.js:89-100 | sending a billion tokens and sending to the zero address are both rejected, and the deployer keeps a million |
| `Scenarios.ExchangeDeployment` | test/Exchange.js:37-46 | the exchange reports the fee account and the fee percent 10 |
| `Scenarios.DepositTokens` | test/Exchange.js:54-82 | after approving and depositing 10, the exchange holds 10, user1's custody is 10, and the events are Transfer then Deposit with balance 10 |
| `Scenarios.DepositFails` | test/Exchange.js:86-90 | a deposit without approval fails for lack of allowance and credits nothing |
| `Scenarios.WithdrawTokens` | test/Exchange.js:100-133 | after depositing and withdrawing 10, the exchange holds 0, custody is 0, user1 holds 100 again, and the events are Transfer then Withdraw with balance 0 |
| `Scenarios.WithdrawFails` | test/Exchange.js:137-141 | withdrawing without a deposit fails with `InsufficientBalance` |
| `Scenarios.CheckBalances` | test/Exchange.js:152-166 | the exchange reports a deposit of 1 |
| `Scenarios.MakeOrders` | test/Exchange.js:175-210 | the first order gets id 1, `orderCount` becomes 1, and its event carries the given terms and time |
| `Scenarios.MakeOrderFails` | test/Exchange.js:213-217 | an order without a deposit fails with `InsufficientBalance` and `orderCount` stays 0 |
| `Scenarios.CancelOrders` | test/Exchange.js:259-281 | the creator's cancellation sets `orderCancelled(1)` and logs Cancel with the order and the cancellation time |
| `Scenarios.CancelOrdersFails` | test/Exchange.js:285-310 | cancelling id 99999 fails with `InvalidOrder`, and user2 cancelling order 1 fails with `Unauthorized` |
| `Scenarios.FillOrders` | test/Exchange.js:316-352 | after user2 fills order 1: DAPP 0 / 1 / 0 and mDAI 1 / 0.9 / 0.1 for user1 / user2 / fee account, `orderFilled(1)` holds, and Trade is logged |
| `Scenarios.FillOrdersFails` | test/Exchange.js:354-372 | filling id 99999, filling order 1 a second time, and filling a cancelled order fail with `InvalidOrder`, `OrderAlreadyFilled` and `OrderCancelled` |
| `Scenarios.DepositWithdrawRoundTrip` | test/Exchange.js:100-122 | on any valid ledger, an affordable approved deposit followed by the same withdrawal succeeds and restores every token balance and every custodied balance |

## Left out

- The Solidity contracts themselves are not part of this model; they are rebuilt from the suites, so a contract detail the suites do not fix is modelled by choice (listed above under "Decisions where the suites are silent").
- Hardhat and ethers mechanics (signers, contract factories, receipts) are left out. Contract addresses are constants of the scenarios.
- Event positions inside a receipt (`events[1]`) are left out. The scenarios compare the sequence of events one transaction appends to the log.
- `parseUnits` decimal-string conversion is left out; amounts are natural numbers already scaled by 10^18.
- Block timestamps are an input; the suites only check that they are at least 1.
- Re-entrancy and the ordering of the exchange's external calls are left out: a token call is an atomic update of the same ledger, so there is nothing to re-enter.
- Gas, and the 256-bit bound on amounts, are left out: amounts are unbounded naturals, so no overflow check is modelled.
- `Ledger.Ledger.Transfer` and `Ledger.Ledger.Approve` require that the caller is not the exchange. The exchange contract sends from its own address only inside `withdrawToken`, which the model performs itself.
- `Ledger.Ledger.TransferFrom` accepts the exchange's address as the spender from any caller. On the chain the spender is the sending contract, and the exchange spends allowances only inside `depositToken`. So a call that spends an allowance granted to the exchange without crediting custody is behaviour of the model alone, and `Valid()` does not exclude it.
- A self-fill, where the creator fills their own order, is not rejected: the suites give it no error. `Settlement.SettleEffect` states its effect.
- The React components, the browser interactions module and the deployment and seed scripts are left out; they only call the contracts.
