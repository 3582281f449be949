/** The request scenarios of the app's unit tests, in cents, stated on the
    specification functions of the model. */
module Scenarios {
  import opened Validation
  import opened Rows
  import opened Portfolio
  import opened Finance

  lemma TwoParses()
    ensures ParseInt("2") == Some(2)
  {
    ParseRoundTrip(2);
    assert DecimalText(2) == "2";
  }

  /** "aapl" and "AAPL" with a count of "2" make the same order. */
  lemma OrdersOfTwo()
    ensures ParseOrder("aapl", "2") == Accepted(Order("AAPL", 2))
    ensures ParseOrder("AAPL", "2") == Accepted(Order("AAPL", 2))
  {
    UpperIgnoresCase("aapl", "AAPL");
    assert Upper("AAPL") == "AAPL";
    TwoParses();
  }

  /** A single row is its own user's whole holding of its symbol. */
  lemma HoldingOfOneRow(t: Transaction)
    ensures Held([t], t.userId, t.symbol) == t.shares
  {
    assert Held([], t.userId, t.symbol) == 0;
    HeldAfterAppend([], t, t.userId, t.symbol);
    assert [] + [t] == [t];
  }

  /** A buy of "2" shares of "aapl" at $150.00 by a user holding $10,000.00
      goes through: it records the upper-cased symbol and leaves $9,700.00. */
  lemma BuyWithinCash()
    ensures var e := BuyEffect(map[1 := User("alice", "h", 1000000)], [], 1, "aapl", "2", Some(15000));
            && e.resp == Redirect("/")
            && e.txs == [Transaction(1, "AAPL", 15000, 2)]
            && e.users == map[1 := User("alice", "h", 970000)]
  {
    OrdersOfTwo();
  }

  /** Shares bought as "aapl" can be sold back as "AAPL": both upper-case to
      the same symbol, so the sell finds the holding of 2, pays $300.00 back
      and leaves none. */
  lemma BuyLowerSellUpper()
    ensures var bought := BuyEffect(map[1 := User("alice", "h", 1000000)], [], 1, "aapl", "2", Some(15000));
            var sold := SellEffect(bought.users, bought.txs, 1, "AAPL", "2", Some(15000));
            && sold.resp == Redirect("/")
            && sold.users[1].cash == 1000000
            && Held(sold.txs, 1, "AAPL") == 0
  {
    BuyWithinCash();
    OrdersOfTwo();
    var t1 := Transaction(1, "AAPL", 15000, 2);
    HoldingOfOneRow(t1);
    var sold := SellEffect(map[1 := User("alice", "h", 970000)], [t1], 1, "AAPL", "2", Some(15000));
    assert sold.txs == [t1] + [Transaction(1, "AAPL", 15000, -2)];
    HeldAfterAppend([t1], Transaction(1, "AAPL", 15000, -2), 1, "AAPL");
  }

  /** The same order from a user holding $100.00 is refused and changes nothing. */
  lemma BuyBeyondCash()
    ensures var e := BuyEffect(map[1 := User("alice", "h", 10000)], [], 1, "AAPL", "2", Some(15000));
            e == Effect(Apology("can't afford", 400), map[1 := User("alice", "h", 10000)], [])
  {
    OrdersOfTwo();
  }

  /** Spending exactly all of the cash is allowed. */
  lemma BuyAllCash()
    ensures var e := BuyEffect(map[1 := User("alice", "h", 30000)], [], 1, "AAPL", "2", Some(15000));
            e.resp == Redirect("/") && e.users[1].cash == 0
  {
    OrdersOfTwo();
  }

  /** Rows of 2 and then 3 shares of AAPL make a holding of 5. */
  lemma HoldingOfTwoRows()
    ensures Held([Transaction(1, "AAPL", 10000, 2), Transaction(1, "AAPL", 10000, 3)], 1, "AAPL") == 5
  {
    var t1, t2 := Transaction(1, "AAPL", 10000, 2), Transaction(1, "AAPL", 10000, 3);
    assert [t1] + [t2] == [t1, t2];
    HoldingOfOneRow(t1);
    assert Held([t1], 1, "AAPL") == 2;
    HeldAfterAppend([t1], t2, 1, "AAPL");
  }

  /** A user whose rows of AAPL hold 2 and 3 shares can sell 2 at $100.00:
      the proceeds are added and 3 shares remain. */
  lemma SellFromFive()
    ensures var txs := [Transaction(1, "AAPL", 10000, 2), Transaction(1, "AAPL", 10000, 3)];
            var e := SellEffect(map[1 := User("alice", "h", 0)], txs, 1, "AAPL", "2", Some(10000));
            && e.resp == Redirect("/")
            && e.users[1].cash == 20000
            && Held(e.txs, 1, "AAPL") == 3
  {
    var txs := [Transaction(1, "AAPL", 10000, 2), Transaction(1, "AAPL", 10000, 3)];
    OrdersOfTwo();
    HoldingOfTwoRows();
    var e := SellEffect(map[1 := User("alice", "h", 0)], txs, 1, "AAPL", "2", Some(10000));
    assert e.txs == txs + [Transaction(1, "AAPL", 10000, -2)];
    HeldAfterAppend(txs, Transaction(1, "AAPL", 10000, -2), 1, "AAPL");
  }

  /** A user holding one share cannot sell two, and nothing changes. */
  lemma SellBeyondHolding()
    ensures var txs := [Transaction(1, "AAPL", 10000, 1)];
            var e := SellEffect(map[1 := User("alice", "h", 0)], txs, 1, "AAPL", "2", Some(10000));
            e == Effect(Apology("too many shares", 400), map[1 := User("alice", "h", 0)], txs)
  {
    OrdersOfTwo();
    HoldingOfOneRow(Transaction(1, "AAPL", 10000, 1));
  }

  /** One AAPL share at $150.00, two GOOGL at $2,000.00 and one AAPL at
      $300.00: 2 AAPL with basis $450.00, 2 GOOGL with basis $4,000.00, and a
      total of the cash plus $4,450.00. */
  lemma PortfolioOfThreeRows()
    ensures var rows := [Transaction(1, "AAPL", 15000, 1), Transaction(1, "GOOGL", 200000, 2),
                         Transaction(1, "AAPL", 30000, 1)];
            && SharesBySymbol(rows) == map["AAPL" := 2, "GOOGL" := 2]
            && BasisBySymbol(rows) == map["AAPL" := 45000, "GOOGL" := 400000]
            && Basis(rows) == 445000
  {
    var a, g, b := Transaction(1, "AAPL", 15000, 1), Transaction(1, "GOOGL", 200000, 2), Transaction(1, "AAPL", 30000, 1);
    var rows := [a, g, b];
    assert [a][..0] == [];
    assert SharesBySymbol([a]) == map["AAPL" := 1] && BasisBySymbol([a]) == map["AAPL" := 15000];
    assert Basis([a]) == 15000;
    assert [a, g][..1] == [a];
    assert SharesBySymbol([a, g]) == map["AAPL" := 1, "GOOGL" := 2];
    assert BasisBySymbol([a, g]) == map["AAPL" := 15000, "GOOGL" := 400000];
    assert Basis([a, g]) == 415000;
    assert rows[..2] == [a, g];
  }
}
