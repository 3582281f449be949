/** The `transactions` table and the queries the routes run over it: the rows
    of one user, the rows of one symbol, and the sums of their share counts
    and of their cost basis. All sums are defined from the last row back, the
    order in which the routes' loops extend them. */
module Rows {

  /** One row of `transactions` (its id and timestamp are not modelled). The
      price is in cents; a positive share count is a buy, a negative one a sell. */
  datatype Transaction = Transaction(userId: nat, symbol: string, price: nat, shares: int)

  /** `... FROM transactions WHERE user_id = user`, in table order. */
  function OfUser(rows: seq<Transaction>, user: nat): (r: seq<Transaction>)
    ensures |r| <= |rows|
  {
    if |rows| == 0 then []
    else
      var last := rows[|rows| - 1];
      OfUser(rows[..|rows| - 1], user) + (if last.userId == user then [last] else [])
  }

  /** `... AND symbol = symbol`, in table order. */
  function OfSymbol(rows: seq<Transaction>, symbol: string): (r: seq<Transaction>)
    ensures |r| <= |rows|
  {
    if |rows| == 0 then []
    else
      var last := rows[|rows| - 1];
      OfSymbol(rows[..|rows| - 1], symbol) + (if last.symbol == symbol then [last] else [])
  }

  /** The net share count of some rows: the sum of their signed counts. */
  function NetShares(rows: seq<Transaction>): int
  {
    if |rows| == 0 then 0 else NetShares(rows[..|rows| - 1]) + rows[|rows| - 1].shares
  }

  /** The cost basis of some rows: the sum of price times signed count, in cents. */
  function Basis(rows: seq<Transaction>): int
  {
    if |rows| == 0 then 0
    else Basis(rows[..|rows| - 1]) + rows[|rows| - 1].price * rows[|rows| - 1].shares
  }

  /** The shares of `symbol` that `user` holds: what sell sums before it
      accepts an order. */
  function Held(rows: seq<Transaction>, user: nat, symbol: string): int
  {
    NetShares(OfSymbol(OfUser(rows, user), symbol))
  }

  // ---------------------------------------------------------------------------
  // What the queries select

  lemma {:induction false} OfUserSelects(rows: seq<Transaction>, user: nat)
    ensures forall t :: t in OfUser(rows, user) <==> t in rows && t.userId == user
  {
    if |rows| > 0 {
      var init := rows[..|rows| - 1];
      OfUserSelects(init, user);
      assert forall t :: t in rows <==> t in init || t == rows[|rows| - 1];
    }
  }

  lemma {:induction false} OfSymbolSelects(rows: seq<Transaction>, symbol: string)
    ensures forall t :: t in OfSymbol(rows, symbol) <==> t in rows && t.symbol == symbol
  {
    if |rows| > 0 {
      var init := rows[..|rows| - 1];
      OfSymbolSelects(init, symbol);
      assert forall t :: t in rows <==> t in init || t == rows[|rows| - 1];
    }
  }

  /** A symbol selects some row exactly when some row carries it. */
  lemma SymbolSelectsRows(rows: seq<Transaction>, symbol: string)
    ensures OfSymbol(rows, symbol) != [] <==> exists t :: t in rows && t.symbol == symbol
  {
    OfSymbolSelects(rows, symbol);
    var picked := OfSymbol(rows, symbol);
    if picked != [] {
      assert picked[0] in picked;
    }
  }

  // ---------------------------------------------------------------------------
  // Appending one row

  lemma DropAppended(rows: seq<Transaction>, t: Transaction)
    ensures (rows + [t])[..|rows|] == rows
  {
  }

  lemma OfUserAppend(rows: seq<Transaction>, t: Transaction, user: nat)
    ensures OfUser(rows + [t], user) == OfUser(rows, user) + (if t.userId == user then [t] else [])
  {
    DropAppended(rows, t);
  }

  lemma OfSymbolAppend(rows: seq<Transaction>, t: Transaction, symbol: string)
    ensures OfSymbol(rows + [t], symbol) == OfSymbol(rows, symbol) + (if t.symbol == symbol then [t] else [])
  {
    DropAppended(rows, t);
  }

  /** Appending a row adds its count to the net count and its price times its
      count to the basis. */
  lemma SumsAppend(rows: seq<Transaction>, t: Transaction)
    ensures NetShares(rows + [t]) == NetShares(rows) + t.shares
    ensures Basis(rows + [t]) == Basis(rows) + t.price * t.shares
  {
    DropAppended(rows, t);
  }

  /** A row adds its count and its basis to the sums of its own symbol and
      nothing to those of any other symbol. */
  lemma SymbolSumsAfterAppend(rows: seq<Transaction>, t: Transaction, symbol: string)
    ensures NetShares(OfSymbol(rows + [t], symbol)) ==
              NetShares(OfSymbol(rows, symbol)) + (if t.symbol == symbol then t.shares else 0)
    ensures Basis(OfSymbol(rows + [t], symbol)) ==
              Basis(OfSymbol(rows, symbol)) + (if t.symbol == symbol then t.price * t.shares else 0)
  {
    OfSymbolAppend(rows, t, symbol);
    var picked := OfSymbol(rows, symbol);
    if t.symbol == symbol {
      SumsAppend(picked, t);
    } else {
      assert picked + [] == picked;
    }
  }

  /** A row changes the holding of its own user and symbol by its share count
      and no other holding. */
  lemma HeldAfterAppend(rows: seq<Transaction>, t: Transaction, user: nat, symbol: string)
    ensures Held(rows + [t], user, symbol) ==
              Held(rows, user, symbol) + (if t.userId == user && t.symbol == symbol then t.shares else 0)
  {
    OfUserAppend(rows, t, user);
    var mine := OfUser(rows, user);
    if t.userId == user {
      OfSymbolAppend(mine, t, symbol);
      if t.symbol == symbol {
        SumsAppend(OfSymbol(mine, symbol), t);
      } else {
        assert OfSymbol(mine, symbol) + [] == OfSymbol(mine, symbol);
      }
    } else {
      assert mine + [] == mine;
    }
  }

  /** A row changes the basis of its own user by its price times its count and
      the basis of no other user. */
  lemma BasisAfterAppend(rows: seq<Transaction>, t: Transaction, user: nat)
    ensures Basis(OfUser(rows + [t], user)) ==
              Basis(OfUser(rows, user)) + (if t.userId == user then t.price * t.shares else 0)
  {
    OfUserAppend(rows, t, user);
    if t.userId == user {
      SumsAppend(OfUser(rows, user), t);
    } else {
      assert OfUser(rows, user) + [] == OfUser(rows, user);
    }
  }

  // ---------------------------------------------------------------------------
  // Empty queries

  /** A user with no rows holds nothing and has no basis. */
  lemma NoRowsOfUser(rows: seq<Transaction>, user: nat, symbol: string)
    requires forall t :: t in rows ==> t.userId != user
    ensures OfUser(rows, user) == []
    ensures Held(rows, user, symbol) == 0 && Basis(OfUser(rows, user)) == 0
  {
    OfUserSelects(rows, user);
  }
}
