/** The balance book of one token and the arithmetic that moves value inside it. */
module Balances {
  import opened Types

  /** Owner to amount; an owner without an entry holds nothing. */
  type Book = map<Addr, nat>

  function Bal(m: Book, a: Addr): nat {
    if a in m then m[a] else 0
  }

  ghost function Pick(s: set<Addr>): Addr
    requires s != {}
  {
    var a :| a in s; a
  }

  /**
   * The total held in a book. The recursion goes through `SumSplit`, so that
   * a proof about the total sees one case split at a time.
   */
  ghost function Sum(m: Book): nat
    decreases |m|, 1
  {
    if |m| == 0 then 0 else SumSplit(m)
  }

  /** The total of a non-empty book: one entry plus the total of the rest. */
  ghost function SumSplit(m: Book): nat
    requires |m| > 0
    decreases |m|, 0
  {
    assert m.Keys != {} by { assert |m.Keys| == |m|; }
    var a := Pick(m.Keys);
    m[a] + Sum(m - {a})
  }

  /** Any entry may be split off the sum, not only the one `Sum` picks. */
  lemma {:induction false} SumRemove(m: Book, a: Addr)
    requires a in m
    ensures Sum(m) == m[a] + Sum(m - {a})
    decreases |m|
  {
    assert |m.Keys| == |m|;
    var b := Pick(m.Keys);
    assert Sum(m) == SumSplit(m) == m[b] + Sum(m - {b});
    if b != a {
      SumRemove(m - {b}, a);
      SumRemove(m - {a}, b);
      assert m - {b} - {a} == m - {a} - {b};
    }
  }

  /** Overwriting one entry changes the total by the difference. */
  lemma SumSet(m: Book, a: Addr, v: nat)
    ensures Sum(m[a := v]) + Bal(m, a) == Sum(m) + v
  {
    var m' := m[a := v];
    SumRemove(m', a);
    assert m' - {a} == m - {a};
    if a in m {
      SumRemove(m, a);
    } else {
      assert m - {a} == m;
    }
  }

  /** No single holder owns more than the whole book. */
  lemma BalAtMostSum(m: Book, a: Addr)
    ensures Bal(m, a) <= Sum(m)
  {
    if a in m {
      SumRemove(m, a);
    }
  }

  /** A book holding everything at one address. */
  function Mint(a: Addr, v: nat): Book {
    map[a := v]
  }

  /** A minted book gives the whole amount to its one holder and adds up to it. */
  lemma MintHoldsAll(a: Addr, v: nat)
    ensures Bal(Mint(a, v), a) == v
    ensures forall b :: b != a ==> Bal(Mint(a, v), b) == 0
    ensures Sum(Mint(a, v)) == v
  {
    SumSet(map[], a, v);
  }

  function Credit(m: Book, a: Addr, v: nat): Book {
    m[a := Bal(m, a) + v]
  }

  /** Checked subtraction: the caller must hold at least `v`. */
  function Debit(m: Book, a: Addr, v: nat): Book
    requires v <= Bal(m, a)
  {
    m[a := Bal(m, a) - v]
  }

  /** A credit adds exactly `v` to the total. */
  lemma CreditSum(m: Book, a: Addr, v: nat)
    ensures Sum(Credit(m, a, v)) == Sum(m) + v
  {
    SumSet(m, a, Bal(m, a) + v);
  }

  /** A debit takes exactly `v` from the total. */
  lemma DebitSum(m: Book, a: Addr, v: nat)
    requires v <= Bal(m, a)
    ensures Sum(Debit(m, a, v)) + v == Sum(m)
  {
    var left := Bal(m, a) - v;
    SumSet(m, a, left);
  }

  /** The token's internal transfer: debit `from`, then credit `to`. */
  function Move(m: Book, from: Addr, to: Addr, v: nat): Book
    requires v <= Bal(m, from)
  {
    Credit(Debit(m, from, v), to, v)
  }

  /** A transfer moves `v` from `from` to `to` and touches no other holder. */
  lemma MoveEffect(m: Book, from: Addr, to: Addr, v: nat)
    requires v <= Bal(m, from)
    ensures from != to ==> Bal(Move(m, from, to, v), from) == Bal(m, from) - v
    ensures from != to ==> Bal(Move(m, from, to, v), to) == Bal(m, to) + v
    ensures from == to ==> Bal(Move(m, from, to, v), from) == Bal(m, from)
    ensures forall b :: b != from && b != to ==> Bal(Move(m, from, to, v), b) == Bal(m, b)
  {
  }

  /** A transfer neither creates nor destroys tokens. */
  lemma MoveConserves(m: Book, from: Addr, to: Addr, v: nat)
    requires v <= Bal(m, from)
    ensures Sum(Move(m, from, to, v)) == Sum(m)
  {
    DebitSum(m, from, v);
    CreditSum(Debit(m, from, v), to, v);
  }

  /** Moving an amount and moving it back leaves every holder as before. */
  lemma MoveBack(m: Book, from: Addr, to: Addr, v: nat)
    requires v <= Bal(m, from)
    ensures v <= Bal(Move(m, from, to, v), to)
    ensures forall b :: Bal(Move(Move(m, from, to, v), to, from, v), b) == Bal(m, b)
  {
  }
}
