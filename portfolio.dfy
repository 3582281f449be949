/** The portfolio page: the loop of `index` that groups a user's rows by
    symbol, sums their share counts and their cost basis per symbol, and adds
    every row's basis to the cash to form the total. */
module Portfolio {
  import opened Rows

  /** What the page shows, in cents: the cash, the net count and the basis per
      symbol, and the total. */
  datatype Summary = Summary(cash: int, shares: map<string, int>, holding: map<string, int>, total: int)

  /** The value a map holds for a key, zero when it holds none: the
      `setdefault(symbol, 0)` of the loop. */
  function Entry(m: map<string, int>, key: string): int
  {
    if key in m then m[key] else 0
  }

  /** The net count per symbol that the loop builds from `rows`. */
  function SharesBySymbol(rows: seq<Transaction>): map<string, int>
  {
    if |rows| == 0 then map[]
    else
      var m := SharesBySymbol(rows[..|rows| - 1]);
      var last := rows[|rows| - 1];
      m[last.symbol := Entry(m, last.symbol) + last.shares]
  }

  /** The basis per symbol that the loop builds from `rows`. */
  function BasisBySymbol(rows: seq<Transaction>): map<string, int>
  {
    if |rows| == 0 then map[]
    else
      var m := BasisBySymbol(rows[..|rows| - 1]);
      var last := rows[|rows| - 1];
      m[last.symbol := Entry(m, last.symbol) + last.price * last.shares]
  }

  /** `index` from the cash and the user's rows on: the per-symbol maps the
      loop builds, and a total of the cash plus every row's basis; with no
      rows, cash alone. */
  method Tally(cash: int, rows: seq<Transaction>) returns (p: Summary)
    ensures p.cash == cash
    ensures p.shares == SharesBySymbol(rows) && p.holding == BasisBySymbol(rows)
    ensures p.total == cash + Basis(rows)
  {
    if |rows| == 0 {
      return Summary(cash, map[], map[], cash);
    }
    var shares: map<string, int> := map[];
    var holding: map<string, int> := map[];
    var total := cash;
    var i := 0;
    while i < |rows|
      invariant 0 <= i <= |rows|
      invariant shares == SharesBySymbol(rows[..i]) && holding == BasisBySymbol(rows[..i])
      invariant total == cash + Basis(rows[..i])
    {
      var row := rows[i];
      assert rows[..i + 1][..i] == rows[..i];
      var totalPrice := row.price * row.shares;
      shares := shares[row.symbol := Entry(shares, row.symbol) + row.shares];
      holding := holding[row.symbol := Entry(holding, row.symbol) + totalPrice];
      total := total + totalPrice;
      i := i + 1;
    }
    assert rows[..i] == rows;
    p := Summary(cash, shares, holding, total);
  }

  /** The two maps have an entry for the same symbols: those some row carries. */
  lemma {:induction false} BySymbolKeys(rows: seq<Transaction>, symbol: string)
    ensures symbol in SharesBySymbol(rows) <==> OfSymbol(rows, symbol) != []
    ensures symbol in BasisBySymbol(rows) <==> OfSymbol(rows, symbol) != []
  {
    if |rows| > 0 {
      BySymbolKeys(rows[..|rows| - 1], symbol);
    }
  }

  /** The entry of a symbol is the net count of that symbol's rows. */
  lemma {:induction false} SharesBySymbolSums(rows: seq<Transaction>, symbol: string)
    ensures Entry(SharesBySymbol(rows), symbol) == NetShares(OfSymbol(rows, symbol))
  {
    if |rows| > 0 {
      var picked := OfSymbol(rows[..|rows| - 1], symbol);
      var last := rows[|rows| - 1];
      SharesBySymbolSums(rows[..|rows| - 1], symbol);
      if last.symbol == symbol {
        SumsAppend(picked, last);
      } else {
        assert picked + [] == picked;
      }
    }
  }

  /** The basis entry of a symbol is the basis of that symbol's rows. */
  lemma {:induction false} BasisBySymbolSums(rows: seq<Transaction>, symbol: string)
    ensures Entry(BasisBySymbol(rows), symbol) == Basis(OfSymbol(rows, symbol))
  {
    if |rows| > 0 {
      var picked := OfSymbol(rows[..|rows| - 1], symbol);
      var last := rows[|rows| - 1];
      BasisBySymbolSums(rows[..|rows| - 1], symbol);
      if last.symbol == symbol {
        SumsAppend(picked, last);
      } else {
        assert picked + [] == picked;
      }
    }
  }
}
