/** The token contract: balances per holder and a checked transfer. */
module Token {
  import opened Host

  type Balances = map<Address, Amount>

  function BalanceOf(b: Balances, a: Address): Amount {
    if a in b then b[a] else 0
  }

  /** None is a host trap: negative amount, insufficient funds or overflow at the receiver. */
  function Transfer(b: Balances, from: Address, to: Address, amount: i128): Option<Balances> {
    if amount < 0 || BalanceOf(b, from) < amount then None
    else
      var debited := b[from := BalanceOf(b, from) - amount];
      if BalanceOf(debited, to) + amount > I128_MAX then None
      else Some(debited[to := BalanceOf(debited, to) + amount])
  }

  /** The token units in existence. */
  ghost function Sum(m: map<Address, nat>): nat {
    if m == map[] then 0
    else
      var k :| k in m;
      m[k] + Sum(m - {k})
  }

  lemma {:induction false} SumRemove(m: map<Address, nat>, k: Address)
    requires k in m
    ensures Sum(m) == m[k] + Sum(m - {k})
    decreases |m|
  {
    var p :| p in m && Sum(m) == m[p] + Sum(m - {p});
    if p != k {
      SumRemove(m - {p}, k);
      SumRemove(m - {k}, p);
      assert m - {p} - {k} == m - {k} - {p};
    }
  }

  lemma SumUpdate(m: map<Address, nat>, k: Address, v: nat)
    ensures Sum(m[k := v]) == Sum(m) - (if k in m then m[k] else 0) + v
  {
    SumRemove(m[k := v], k);
    if k in m {
      SumRemove(m, k);
      assert m[k := v] - {k} == m - {k};
    } else {
      assert m[k := v] - {k} == m;
    }
  }

  /** A successful transfer moves `amount` and neither creates nor destroys units. */
  lemma TransferConserves(b: Balances, from: Address, to: Address, amount: i128)
    requires Transfer(b, from, to, amount).Some?
    ensures Sum(Transfer(b, from, to, amount).value) == Sum(b)
    ensures forall a ::
      BalanceOf(Transfer(b, from, to, amount).value, a)
        == BalanceOf(b, a) + (if a == to then amount else 0) - (if a == from then amount else 0)
  {
    var debited := b[from := BalanceOf(b, from) - amount];
    SumUpdate(b, from, BalanceOf(b, from) - amount);
    SumUpdate(debited, to, BalanceOf(debited, to) + amount);
  }

  lemma SumCoversTwo(b: Balances, x: Address, y: Address)
    requires x != y
    ensures BalanceOf(b, x) + BalanceOf(b, y) <= Sum(b)
  {
    if x in b { SumRemove(b, x); }
    if y in b {
      SumRemove(b, y);
      if x in b {
        SumRemove(b - {x}, y);
      }
    }
  }

  /** While the supply fits an i128, the only obstacles are a negative amount and missing funds. */
  lemma TransferSucceedsExactly(b: Balances, from: Address, to: Address, amount: i128)
    requires Sum(b) <= I128_MAX
    ensures Transfer(b, from, to, amount).Some? <==> 0 <= amount <= BalanceOf(b, from)
  {
    if from != to { SumCoversTwo(b, from, to); }
  }

  /** Every token contract's book, keyed by the token's address. */
  class Bank {
    var books: map<Address, Balances>

    constructor (books: map<Address, Balances>)
      ensures this.books == books
    {
      this.books := books;
    }

    function Book(token: Address): Balances
      reads this
    {
      BookOf(books, token)
    }

    method TransferTokens(token: Address, from: Address, to: Address, amount: i128) returns (ok: bool)
      modifies this
      ensures ok <==> Transfer(old(Book(token)), from, to, amount).Some?
      ensures books == if ok then old(books)[token := Transfer(old(Book(token)), from, to, amount).value]
                       else old(books)
    {
      var book := Book(token);
      if amount < 0 || BalanceOf(book, from) < amount {
        return false;
      }
      book := book[from := BalanceOf(book, from) - amount];
      if BalanceOf(book, to) + amount > I128_MAX {
        return false;
      }
      book := book[to := BalanceOf(book, to) + amount];
      books := books[token := book];
      return true;
    }
  }

  function BookOf(books: map<Address, Balances>, token: Address): Balances {
    if token in books then books[token] else map[]
  }
}
