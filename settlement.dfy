/**
 * The exchange's custodied balances (token, then user, to amount), the trading fee
 * and the settlement of a filled order.
 */
module Settlement {
  import opened Types
  import opened Balances

  /** tokens[token][user] of the exchange. */
  type Custody = map<Addr, Book>

  /** The custody book of one token; a token never deposited has an empty book. */
  function Row(c: Custody, t: Addr): Book {
    if t in c then c[t] else map[]
  }

  /**
   * What `u` holds of token `t` in a table of books keyed by token, 0 when nothing is
   * stored: the exchange's custody, and also the token balances of every deployed token.
   */
  function Get(c: Custody, t: Addr, u: Addr): nat {
    Bal(Row(c, t), u)
  }

  function CreditAt(c: Custody, t: Addr, u: Addr, v: nat): Custody {
    c[t := Credit(Row(c, t), u, v)]
  }

  function DebitAt(c: Custody, t: Addr, u: Addr, v: nat): Custody
    requires v <= Get(c, t, u)
  {
    c[t := Debit(Row(c, t), u, v)]
  }

  /** A credit in custody adds `v` to token `t`'s total */
  lemma CreditAtSum(c: Custody, t: Addr, u: Addr, v: nat)
    ensures Sum(Row(CreditAt(c, t, u, v), t)) == Sum(Row(c, t)) + v
  {
    CreditSum(Row(c, t), u, v);
  }

  /** A debit in custody takes `v` from token `t`'s total */
  lemma DebitAtSum(c: Custody, t: Addr, u: Addr, v: nat)
    requires v <= Get(c, t, u)
    ensures Sum(Row(DebitAt(c, t, u, v), t)) + v == Sum(Row(c, t))
  {
    DebitSum(Row(c, t), u, v);
  }

  /** Crediting an amount and debiting it again leaves every custodied balance as before. */
  lemma CreditThenDebit(c: Custody, t: Addr, u: Addr, v: nat)
    ensures v <= Get(CreditAt(c, t, u, v), t, u)
    ensures forall t', u' :: Get(DebitAt(CreditAt(c, t, u, v), t, u, v), t', u') == Get(c, t', u')
  {
  }

  /** The fee charged on a fill: `amountGet * feePercent / 100`, truncated. */
  function Fee(amountGet: nat, feePercent: nat): (fee: nat)
    ensures fee * 100 <= amountGet * feePercent < fee * 100 + 100
    ensures feePercent <= 100 ==> fee <= amountGet
  {
    amountGet * feePercent / 100
  }

  /**
   * Steps 1 to 3 of a fill, all in token `t`: the filler pays `amount + fee`, the
   * creator receives `amount` and the fee account receives `fee`.
   */
  function Pay(c: Custody, t: Addr, filler: Addr, creator: Addr, feeAccount: Addr, amount: nat, fee: nat): Custody
    requires amount + fee <= Get(c, t, filler)
  {
    var c1 := DebitAt(c, t, filler, amount + fee);
    var c2 := CreditAt(c1, t, creator, amount);
    CreditAt(c2, t, feeAccount, fee)
  }

  /** Steps 4 and 5 of a fill, in token `t`: the creator hands `amount` to the filler. */
  function Hand(c: Custody, t: Addr, creator: Addr, filler: Addr, amount: nat): Custody
    requires amount <= Get(c, t, creator)
  {
    CreditAt(DebitAt(c, t, creator, amount), t, filler, amount)
  }

  /**
   * The custody updates of a fill, in the order the exchange performs them.
   * None when a debit would go below zero (the filler's `amountGet + fee` of
   * `tokenGet`, or the creator's `amountGive` of `tokenGive` after step 3); then the fill reverts.
   */
  function Settle(c: Custody, o: Order, filler: Addr, feeAccount: Addr, feePercent: nat): (r: Option<Custody>)
    ensures Get(c, o.tokenGet, filler) < o.amountGet + Fee(o.amountGet, feePercent) ==> r.None?
  {
    var fee := Fee(o.amountGet, feePercent);
    if Get(c, o.tokenGet, filler) < o.amountGet + fee then None
    else
      var paid := Pay(c, o.tokenGet, filler, o.user, feeAccount, o.amountGet, fee);
      if Get(paid, o.tokenGive, o.user) < o.amountGive then None
      else Some(Hand(paid, o.tokenGive, o.user, filler, o.amountGive))
  }

  /** Steps 1 to 3 move custody between users without changing any token's total. */
  lemma PayConserves(c: Custody, t: Addr, filler: Addr, creator: Addr, feeAccount: Addr, amount: nat, fee: nat, t': Addr)
    requires amount + fee <= Get(c, t, filler)
    ensures Sum(Row(Pay(c, t, filler, creator, feeAccount, amount, fee), t')) == Sum(Row(c, t'))
  {
    if t' == t {
      var c1 := DebitAt(c, t, filler, amount + fee);
      var c2 := CreditAt(c1, t, creator, amount);
      assert Pay(c, t, filler, creator, feeAccount, amount, fee) == CreditAt(c2, t, feeAccount, fee);
      DebitAtSum(c, t, filler, amount + fee);
      CreditAtSum(c1, t, creator, amount);
      CreditAtSum(c2, t, feeAccount, fee);
    }
  }

  /** Steps 4 and 5 move custody between users without changing any token's total. */
  lemma HandConserves(c: Custody, t: Addr, creator: Addr, filler: Addr, amount: nat, t': Addr)
    requires amount <= Get(c, t, creator)
    ensures Sum(Row(Hand(c, t, creator, filler, amount), t')) == Sum(Row(c, t'))
  {
    if t' == t {
      DebitAtSum(c, t, creator, amount);
      CreditAtSum(DebitAt(c, t, creator, amount), t, filler, amount);
    }
  }

  /** A fill neither creates nor destroys custody of any token. */
  lemma SettleConserves(c: Custody, o: Order, filler: Addr, feeAccount: Addr, feePercent: nat, t: Addr)
    requires Settle(c, o, filler, feeAccount, feePercent).Some?
    ensures Sum(Row(Settle(c, o, filler, feeAccount, feePercent).value, t)) == Sum(Row(c, t))
  {
    var fee := Fee(o.amountGet, feePercent);
    var paid := Pay(c, o.tokenGet, filler, o.user, feeAccount, o.amountGet, fee);
    PayConserves(c, o.tokenGet, filler, o.user, feeAccount, o.amountGet, fee, t);
    HandConserves(paid, o.tokenGive, o.user, filler, o.amountGive, t);
  }

  /**
   * For an order between two different tokens, the fill succeeds exactly when the
   * filler holds `amountGet + fee` of `tokenGet` and the creator `amountGive` of `tokenGive`.
   */
  lemma SettleSucceedsIff(c: Custody, o: Order, filler: Addr, feeAccount: Addr, feePercent: nat)
    requires o.tokenGet != o.tokenGive
    ensures Settle(c, o, filler, feeAccount, feePercent).Some?
        <==> Get(c, o.tokenGet, filler) >= o.amountGet + Fee(o.amountGet, feePercent)
             && Get(c, o.tokenGive, o.user) >= o.amountGive
  {
  }

  /**
   * For every order, the fill succeeds exactly when the filler holds `amountGet + fee`
   * of `tokenGet` and the creator, once steps 1 to 3 have run, holds `amountGive` of
   * `tokenGive`; those steps touch the creator's `tokenGive` only when the order trades
   * a token for itself.
   */
  lemma SettleSucceedsWhen(c: Custody, o: Order, filler: Addr, feeAccount: Addr, feePercent: nat)
    ensures var fee := Fee(o.amountGet, feePercent);
      var credited := if o.tokenGive == o.tokenGet then o.amountGet + (if o.user == feeAccount then fee else 0) else 0;
      var debited := if o.tokenGive == o.tokenGet && o.user == filler then o.amountGet + fee else 0;
      Settle(c, o, filler, feeAccount, feePercent).Some? <==>
        Get(c, o.tokenGet, filler) >= o.amountGet + fee && Get(c, o.tokenGive, o.user) + credited >= o.amountGive + debited
  {
  }

  /** What a fill takes from user `u` in token `t`: the filler's payment and the creator's hand-over. */
  function Taken(o: Order, filler: Addr, fee: nat, t: Addr, u: Addr): nat {
    (if t == o.tokenGet && u == filler then o.amountGet + fee else 0)
    + (if t == o.tokenGive && u == o.user then o.amountGive else 0)
  }

  /** What a fill gives user `u` in token `t`: the creator's price, the fee and the filler's purchase. */
  function Given(o: Order, filler: Addr, feeAccount: Addr, fee: nat, t: Addr, u: Addr): nat {
    (if t == o.tokenGet && u == o.user then o.amountGet else 0)
    + (if t == o.tokenGet && u == feeAccount then fee else 0)
    + (if t == o.tokenGive && u == filler then o.amountGive else 0)
  }

  /**
   * Every successful fill, whoever the parties and whatever the tokens (a self-fill,
   * the fee account as a party, an order trading a token for itself): each custodied
   * balance changes by exactly what the fill gives that user minus what it takes.
   */
  lemma SettleEffect(c: Custody, o: Order, filler: Addr, feeAccount: Addr, feePercent: nat)
    requires Settle(c, o, filler, feeAccount, feePercent).Some?
    ensures var r, fee := Settle(c, o, filler, feeAccount, feePercent).value, Fee(o.amountGet, feePercent);
      forall t, u :: Get(r, t, u) + Taken(o, filler, fee, t, u) == Get(c, t, u) + Given(o, filler, feeAccount, fee, t, u)
  {
  }

  /**
   * Between two different tokens and three different parties, a fill moves exactly:
   * the filler pays `amountGet + fee` of `tokenGet` and receives `amountGive` of `tokenGive`;
   * the creator receives `amountGet` and pays `amountGive`; the fee account receives `fee`;
   * every other balance stays as it was. This is `SettleEffect` with the parties kept apart.
   */
  lemma SettleBalances(c: Custody, o: Order, filler: Addr, feeAccount: Addr, feePercent: nat)
    requires o.tokenGet != o.tokenGive
    requires filler != o.user && filler != feeAccount && o.user != feeAccount
    requires Settle(c, o, filler, feeAccount, feePercent).Some?
    ensures var r, fee := Settle(c, o, filler, feeAccount, feePercent).value, Fee(o.amountGet, feePercent);
      && Get(r, o.tokenGet, filler) + o.amountGet + fee == Get(c, o.tokenGet, filler)
      && Get(r, o.tokenGet, o.user) == Get(c, o.tokenGet, o.user) + o.amountGet
      && Get(r, o.tokenGet, feeAccount) == Get(c, o.tokenGet, feeAccount) + fee
      && Get(r, o.tokenGive, o.user) + o.amountGive == Get(c, o.tokenGive, o.user)
      && Get(r, o.tokenGive, filler) == Get(c, o.tokenGive, filler) + o.amountGive
      && Get(r, o.tokenGive, feeAccount) == Get(c, o.tokenGive, feeAccount)
      && (forall t, u :: (t != o.tokenGet && t != o.tokenGive) || (u != filler && u != o.user && u != feeAccount)
            ==> Get(r, t, u) == Get(c, t, u))
  {
  }
}
