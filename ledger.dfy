/** The ledger behind the routes of the finance app: the `users` table, the
    append-only `transactions` table, and the POST logic of buy, sell,
    register and login together with the portfolio page. Each request is one
    sequential step; the quote service, the session and password hashing are
    parameters. */
module Finance {
  import opened Validation
  import opened Rows
  import opened Portfolio

  /** A row of `users`; cash is in cents. */
  datatype User = User(username: string, hash: string, cash: int)

  /** What a route answers: a redirect, an apology with its status, or the
      portfolio page. */
  datatype Response = Redirect(location: string) | Apology(message: string, code: nat) | Page(summary: Summary)

  /** `SELECT id FROM users WHERE username = name`. */
  function Named(users: map<nat, User>, name: string): set<nat>
  {
    set id | id in users && users[id].username == name
  }

  /** The cash updates of buy (`cash - cost`) and sell (`cash + proceeds`):
      the one user's cash moves by `amount` and nothing else changes. */
  function AddCash(users: map<nat, User>, id: nat, amount: int): map<nat, User>
    requires id in users
  {
    users[id := users[id].(cash := users[id].cash + amount)]
  }

  ghost predicate IdsBelow(users: map<nat, User>, nextId: nat)
  {
    forall id :: id in users ==> id < nextId
  }

  ghost predicate UniqueNames(users: map<nat, User>)
  {
    forall a, b :: a in users && b in users && users[a].username == users[b].username ==> a == b
  }

  /** Every row belongs to a user, names a ticker and moves a non-zero count. */
  ghost predicate RowsWellFormed(users: map<nat, User>, txs: seq<Transaction>)
  {
    forall t :: t in txs ==> t.userId in users && IsTicker(t.symbol) && t.shares != 0
  }

  ghost predicate CashNonNegative(users: map<nat, User>)
  {
    forall id :: id in users ==> users[id].cash >= 0
  }

  /** A user's cash plus the basis of their rows is the cash they started with. */
  ghost predicate CashConserved(users: map<nat, User>, txs: seq<Transaction>, startingCash: nat)
  {
    forall id {:trigger OfUser(txs, id)} :: id in users ==> users[id].cash + Basis(OfUser(txs, id)) == startingCash
  }

  /** No user holds a negative number of shares of any symbol. */
  ghost predicate HoldingsNonNegative(txs: seq<Transaction>)
  {
    forall u, s :: Held(txs, u, s) >= 0
  }

  /** The invariant every request keeps. */
  ghost predicate Consistent(users: map<nat, User>, txs: seq<Transaction>, nextId: nat, startingCash: nat)
  {
    IdsBelow(users, nextId) && UniqueNames(users) && RowsWellFormed(users, txs)
    && CashNonNegative(users) && CashConserved(users, txs, startingCash) && HoldingsNonNegative(txs)
  }

  // ---------------------------------------------------------------------------
  // The invariant across one request

  /** With unique usernames a name selects at most one user, and it selects
      the one that carries it. */
  lemma NamedIsUnique(users: map<nat, User>, name: string, id: nat)
    requires UniqueNames(users)
    requires id in users && users[id].username == name
    ensures Named(users, name) == {id}
  {
  }

  /** An empty ledger is consistent. */
  lemma EmptyIsConsistent(startingCash: nat)
    ensures Consistent(map[], [], 1, startingCash)
  {
    forall u: nat, s: string ensures Held([], u, s) == 0 {
      assert OfUser([], u) == [];
    }
  }

  /** A trade row paid for out of (or into) its user's cash keeps every
      user's cash plus basis where it was. */
  lemma TradeConservesCash(users: map<nat, User>, txs: seq<Transaction>, startingCash: nat, t: Transaction)
    requires CashConserved(users, txs, startingCash)
    requires t.userId in users
    ensures CashConserved(AddCash(users, t.userId, -(t.price * t.shares)), txs + [t], startingCash)
  {
    var users' := AddCash(users, t.userId, -(t.price * t.shares));
    forall id | id in users'
      ensures users'[id].cash + Basis(OfUser(txs + [t], id)) == startingCash
    {
      BasisAfterAppend(txs, t, id);
    }
  }

  /** A row that buys, or that sells no more than its user holds of its
      symbol, leaves every holding non-negative. */
  lemma TradeKeepsHoldings(txs: seq<Transaction>, t: Transaction)
    requires HoldingsNonNegative(txs)
    requires Held(txs, t.userId, t.symbol) + t.shares >= 0
    ensures HoldingsNonNegative(txs + [t])
  {
    forall u, s ensures Held(txs + [t], u, s) >= 0 {
      HeldAfterAppend(txs, t, u, s);
    }
  }

  /** Only users have rows, so someone who is not a user holds nothing. */
  lemma OnlyUsersHold(users: map<nat, User>, txs: seq<Transaction>, user: nat, symbol: string)
    requires RowsWellFormed(users, txs)
    requires user !in users
    ensures Held(txs, user, symbol) == 0
  {
    NoRowsOfUser(txs, user, symbol);
  }

  // ---------------------------------------------------------------------------
  // Buy and sell as functions of the tables

  /** What a request answers and the tables it leaves behind. */
  datatype Effect = Effect(resp: Response, users: map<nat, User>, txs: seq<Transaction>)

  /** POST /buy by `user`, with `quote` the price the quote service gives for
      the upper-cased symbol, if any: the symbol and the count are validated,
      the quote and the user are looked up, and an affordable order appends a
      row and takes its cost out of the user's cash. */
  function BuyEffect(users: map<nat, User>, txs: seq<Transaction>, user: nat,
                     symbol: string, sharesText: string, quote: Option<nat>): (e: Effect)
    ensures !e.resp.Redirect? ==> e.users == users && e.txs == txs
    ensures e.resp.Redirect? ==> e.users.Keys == users.Keys && |e.txs| == |txs| + 1 && e.txs[..|txs|] == txs
  {
    match ParseOrder(symbol, sharesText)
    case Rejected(message, code) => Effect(Apology(message, code), users, txs)
    case Accepted(order) =>
      if quote.None? then Effect(Apology("invalid symbol", 400), users, txs)
      else if user !in users then Effect(Apology("Failed to retrieve user ID", 500), users, txs)
      else
        var cost := quote.value * order.shares;
        if cost > users[user].cash then Effect(Apology("can't afford", 400), users, txs)
        else Effect(Redirect("/"), AddCash(users, user, -cost),
                    txs + [Transaction(user, order.symbol, quote.value, order.shares)])
  }

  /** POST /sell by `user`: the symbol and the count are validated, the quote
      is looked up, the user's rows of the symbol are summed, and a sell of no
      more than that adds the proceeds to the user's cash (an update that
      matches no user changes nothing) and appends a row of negative count. */
  function SellEffect(users: map<nat, User>, txs: seq<Transaction>, user: nat,
                      symbol: string, sharesText: string, quote: Option<nat>): (e: Effect)
    ensures !e.resp.Redirect? ==> e.users == users && e.txs == txs
    ensures e.resp.Redirect? ==> e.users.Keys == users.Keys && |e.txs| == |txs| + 1 && e.txs[..|txs|] == txs
  {
    match ParseOrder(symbol, sharesText)
    case Rejected(message, code) => Effect(Apology(message, code), users, txs)
    case Accepted(order) =>
      if quote.None? then Effect(Apology("invalid symbol", 400), users, txs)
      else if Held(txs, user, order.symbol) < order.shares then Effect(Apology("too many shares", 400), users, txs)
      else
        var proceeds := quote.value * order.shares;
        Effect(Redirect("/"), if user in users then AddCash(users, user, proceeds) else users,
               txs + [Transaction(user, order.symbol, quote.value, -(order.shares as int))])
  }

  /** The answers of buy, in the order the route checks: the validators' own
      apology, an unknown symbol, an unknown user, a cost above the cash; and
      it redirects exactly when none of these applies. */
  lemma BuyAnswers(users: map<nat, User>, txs: seq<Transaction>, user: nat,
                   symbol: string, sharesText: string, quote: Option<nat>)
    ensures var e := BuyEffect(users, txs, user, symbol, sharesText, quote);
            var o := ParseOrder(symbol, sharesText);
            && (o.Rejected? ==> e.resp == Apology(o.message, o.code))
            && (o.Accepted? && quote.None? ==> e.resp == Apology("invalid symbol", 400))
            && (o.Accepted? && quote.Some? && user !in users ==> e.resp == Apology("Failed to retrieve user ID", 500))
            && (o.Accepted? && quote.Some? && user in users && quote.value * o.order.shares > users[user].cash ==>
                  e.resp == Apology("can't afford", 400))
            && (e.resp.Redirect? <==>
                  o.Accepted? && quote.Some? && user in users && quote.value * o.order.shares <= users[user].cash)
  {
  }

  /** The answers of sell, in the order the route checks: the validators' own
      apology, an unknown symbol, more shares than held; and it redirects
      exactly when none of these applies. */
  lemma SellAnswers(users: map<nat, User>, txs: seq<Transaction>, user: nat,
                    symbol: string, sharesText: string, quote: Option<nat>)
    ensures var e := SellEffect(users, txs, user, symbol, sharesText, quote);
            var o := ParseOrder(symbol, sharesText);
            && (o.Rejected? ==> e.resp == Apology(o.message, o.code))
            && (o.Accepted? && quote.None? ==> e.resp == Apology("invalid symbol", 400))
            && (o.Accepted? && quote.Some? && Held(txs, user, o.order.symbol) < o.order.shares ==>
                  e.resp == Apology("too many shares", 400))
            && (e.resp.Redirect? <==>
                  o.Accepted? && quote.Some? && Held(txs, user, o.order.symbol) >= o.order.shares)
  {
  }

  /** A buy that goes through pays exactly its cost out of its own user's
      cash, which stays non-negative, touches no other user, and adds the
      count bought to that user's holding of the symbol and to no other. */
  lemma BuySettles(users: map<nat, User>, txs: seq<Transaction>, user: nat,
                   symbol: string, sharesText: string, quote: Option<nat>, other: nat, s: string)
    requires BuyEffect(users, txs, user, symbol, sharesText, quote).resp.Redirect?
    ensures var e := BuyEffect(users, txs, user, symbol, sharesText, quote);
            var order := ParseOrder(symbol, sharesText).order;
            && user in users && user in e.users
            && e.txs == txs + [Transaction(user, order.symbol, quote.value, order.shares)]
            && e.users[user].cash == users[user].cash - quote.value * order.shares >= 0
            && e.users[user].username == users[user].username && e.users[user].hash == users[user].hash
            && (other != user && other in users ==> e.users[other] == users[other])
            && Held(e.txs, other, s) == Held(txs, other, s) + (if other == user && s == order.symbol then order.shares else 0)
  {
    var e := BuyEffect(users, txs, user, symbol, sharesText, quote);
    var order := ParseOrder(symbol, sharesText).order;
    HeldAfterAppend(txs, Transaction(user, order.symbol, quote.value, order.shares), other, s);
  }

  /** In a consistent ledger a sell that goes through is by a user: it adds
      exactly its proceeds to that user's cash, touches no other user, and
      takes the count sold off that user's holding of the symbol and off no
      other, which stays non-negative. */
  lemma SellSettles(users: map<nat, User>, txs: seq<Transaction>, nextId: nat, startingCash: nat, user: nat,
                    symbol: string, sharesText: string, quote: Option<nat>, other: nat, s: string)
    requires Consistent(users, txs, nextId, startingCash)
    requires SellEffect(users, txs, user, symbol, sharesText, quote).resp.Redirect?
    ensures var e := SellEffect(users, txs, user, symbol, sharesText, quote);
            var order := ParseOrder(symbol, sharesText).order;
            && user in users && user in e.users
            && e.txs == txs + [Transaction(user, order.symbol, quote.value, -(order.shares as int))]
            && e.users[user].cash == users[user].cash + quote.value * order.shares
            && e.users[user].username == users[user].username && e.users[user].hash == users[user].hash
            && (other != user && other in users ==> e.users[other] == users[other])
            && Held(e.txs, other, s) == Held(txs, other, s) - (if other == user && s == order.symbol then order.shares else 0)
            && Held(e.txs, other, s) >= 0
  {
    var order := ParseOrder(symbol, sharesText).order;
    if user !in users {
      OnlyUsersHold(users, txs, user, order.symbol);
      assert false;
    }
    var t := Transaction(user, order.symbol, quote.value, -(order.shares as int));
    HeldAfterAppend(txs, t, other, s);
  }

  /** Appending a row of a user's, paid for out of (or into) that user's
      cash without making it negative, and buying or selling no more than the
      user holds, keeps the ledger consistent. */
  lemma TradeKeepsConsistent(users: map<nat, User>, txs: seq<Transaction>, nextId: nat, startingCash: nat,
                             t: Transaction)
    requires Consistent(users, txs, nextId, startingCash)
    requires t.userId in users && IsTicker(t.symbol) && t.shares != 0
    requires users[t.userId].cash - t.price * t.shares >= 0
    requires Held(txs, t.userId, t.symbol) + t.shares >= 0
    ensures Consistent(AddCash(users, t.userId, -(t.price * t.shares)), txs + [t], nextId, startingCash)
  {
    var users' := AddCash(users, t.userId, -(t.price * t.shares));
    assert CashConserved(users', txs + [t], startingCash) by {
      TradeConservesCash(users, txs, startingCash, t);
    }
    assert HoldingsNonNegative(txs + [t]) by {
      TradeKeepsHoldings(txs, t);
    }
    assert RowsWellFormed(users', txs + [t]);
  }

  /** The cost of a sell row is minus its proceeds, which are not negative. */
  lemma SellCost(price: nat, count: nat)
    ensures -(price * -(count as int)) == price * count >= 0
  {
  }

  /** Every buy request keeps the ledger consistent. */
  lemma BuyKeepsConsistent(users: map<nat, User>, txs: seq<Transaction>, nextId: nat, startingCash: nat,
                           user: nat, symbol: string, sharesText: string, quote: Option<nat>)
    requires Consistent(users, txs, nextId, startingCash)
    ensures var e := BuyEffect(users, txs, user, symbol, sharesText, quote);
            Consistent(e.users, e.txs, nextId, startingCash)
  {
    var e := BuyEffect(users, txs, user, symbol, sharesText, quote);
    if e.resp.Redirect? {
      var order := ParseOrder(symbol, sharesText).order;
      var t := Transaction(user, order.symbol, quote.value, order.shares);
      assert Held(txs, user, order.symbol) >= 0;
      assert e.users == AddCash(users, user, -(t.price * t.shares)) && e.txs == txs + [t];
      TradeKeepsConsistent(users, txs, nextId, startingCash, t);
    }
  }

  /** Every sell request keeps the ledger consistent. */
  lemma SellKeepsConsistent(users: map<nat, User>, txs: seq<Transaction>, nextId: nat, startingCash: nat,
                            user: nat, symbol: string, sharesText: string, quote: Option<nat>)
    requires Consistent(users, txs, nextId, startingCash)
    ensures var e := SellEffect(users, txs, user, symbol, sharesText, quote);
            Consistent(e.users, e.txs, nextId, startingCash)
  {
    var e := SellEffect(users, txs, user, symbol, sharesText, quote);
    if e.resp.Redirect? {
      var order := ParseOrder(symbol, sharesText).order;
      if user !in users {
        OnlyUsersHold(users, txs, user, order.symbol);
        assert false;
      }
      var t := Transaction(user, order.symbol, quote.value, -(order.shares as int));
      SellCost(quote.value, order.shares);
      assert e.users == AddCash(users, user, -(t.price * t.shares)) && e.txs == txs + [t];
      TradeKeepsConsistent(users, txs, nextId, startingCash, t);
    }
  }

  /** Registering a name nobody has keeps the ledger consistent, and
      afterwards exactly the new id carries that name. */
  lemma RegisterKeepsConsistent(users: map<nat, User>, txs: seq<Transaction>, nextId: nat, startingCash: nat,
                                name: string, hash: string)
    requires Consistent(users, txs, nextId, startingCash)
    requires Named(users, name) == {}
    ensures Consistent(users[nextId := User(name, hash, startingCash)], txs, nextId + 1, startingCash)
    ensures Named(users[nextId := User(name, hash, startingCash)], name) == {nextId}
  {
    var users' := users[nextId := User(name, hash, startingCash)];
    forall id | id in users ensures users[id].username != name {
      assert id !in Named(users, name);
    }
    forall a, b | a in users' && b in users' && users'[a].username == users'[b].username
      ensures a == b
    {
      if a != nextId && b != nextId {
        assert users[a].username == users[b].username;
      }
    }
    NoRowsOfUser(txs, nextId, "");
    NamedIsUnique(users', name, nextId);
  }

  /** The loop of sell that adds up the signed counts of the selected rows. */
  method SumShares(rows: seq<Transaction>) returns (held: int)
    ensures held == NetShares(rows)
  {
    held := 0;
    var i := 0;
    while i < |rows|
      invariant 0 <= i <= |rows|
      invariant held == NetShares(rows[..i])
    {
      assert rows[..i + 1] == rows[..i] + [rows[i]];
      SumsAppend(rows[..i], rows[i]);
      held := held + rows[i].shares;
      i := i + 1;
    }
    assert rows[..i] == rows;
  }

  // ---------------------------------------------------------------------------
  // The ledger

  class Ledger {
    var users: map<nat, User>
    var transactions: seq<Transaction>
    var nextId: nat
    /** The cash a new user starts with. */
    const startingCash: nat

    ghost predicate Valid()
      reads this
    {
      Consistent(users, transactions, nextId, startingCash)
    }

    constructor (startingCash: nat)
      ensures Valid()
      ensures users == map[] && transactions == [] && nextId == 1 && this.startingCash == startingCash
    {
      users, transactions, nextId := map[], [], 1;
      this.startingCash := startingCash;
      EmptyIsConsistent(startingCash);
    }

    /** POST /buy for the logged-in `user`. */
    method Buy(user: nat, symbol: string, sharesText: string, quote: Option<nat>) returns (resp: Response)
      requires Valid()
      modifies this
      ensures Valid() && nextId == old(nextId)
      ensures Effect(resp, users, transactions) == BuyEffect(old(users), old(transactions), user, symbol, sharesText, quote)
    {
      var o := ParseOrder(symbol, sharesText);
      if o.Rejected? {
        return Apology(o.message, o.code);
      }
      if quote.None? {
        return Apology("invalid symbol", 400);
      }
      if user !in users {
        return Apology("Failed to retrieve user ID", 500);
      }
      var cash := users[user].cash;
      var cost := quote.value * o.order.shares;
      if cost > cash {
        return Apology("can't afford", 400);
      }
      BuyKeepsConsistent(users, transactions, nextId, startingCash, user, symbol, sharesText, quote);
      transactions := transactions + [Transaction(user, o.order.symbol, quote.value, o.order.shares)];
      users := AddCash(users, user, -cost);
      resp := Redirect("/");
    }

    /** POST /sell for the logged-in `user`. */
    method Sell(user: nat, symbol: string, sharesText: string, quote: Option<nat>) returns (resp: Response)
      requires Valid()
      modifies this
      ensures Valid() && nextId == old(nextId)
      ensures Effect(resp, users, transactions) == SellEffect(old(users), old(transactions), user, symbol, sharesText, quote)
    {
      var o := ParseOrder(symbol, sharesText);
      if o.Rejected? {
        return Apology(o.message, o.code);
      }
      if quote.None? {
        return Apology("invalid symbol", 400);
      }
      // SELECT shares FROM transactions WHERE user_id = user AND symbol = symbol
      var held := SumShares(OfSymbol(OfUser(transactions, user), o.order.symbol));
      if held < o.order.shares {
        return Apology("too many shares", 400);
      }
      SellKeepsConsistent(users, transactions, nextId, startingCash, user, symbol, sharesText, quote);
      var proceeds := quote.value * o.order.shares;
      if user in users {
        users := AddCash(users, user, proceeds);
      }
      transactions := transactions + [Transaction(user, o.order.symbol, quote.value, -(o.order.shares as int))];
      resp := Redirect("/");
    }

    /** POST /register; `hasher` stands for the salted password hash. On
        success the new user's id is what the session remembers. */
    method Register(username: string, password: string, confirmation: string, hasher: string -> string)
      returns (resp: Response, session: Option<nat>)
      requires Valid()
      modifies this
      ensures Valid()
      ensures username == [] ==> resp == Apology("must provide username", 400)
      ensures username != [] && password == [] ==> resp == Apology("must provide password", 400)
      ensures username != [] && password != [] && confirmation == [] ==>
                resp == Apology("must provide repeat password", 400)
      ensures username != [] && password != [] && confirmation != [] && Named(old(users), username) != {} ==>
                resp == Apology("username already exists", 400)
      ensures username != [] && password != [] && confirmation != [] && Named(old(users), username) == {}
              && password != confirmation ==>
                resp == Apology("password doesn't match", 400)
      ensures resp.Redirect? <==>
                username != [] && password != [] && confirmation != [] && Named(old(users), username) == {}
                && password == confirmation
      ensures !resp.Redirect? ==> session == None && unchanged(this)
      ensures resp.Redirect? ==>
                resp == Redirect("/") && session == Some(old(nextId)) && transactions == old(transactions)
                && nextId == old(nextId) + 1
                && users == old(users)[old(nextId) := User(username, hasher(password), startingCash)]
                && Named(users, username) == {old(nextId)}
    {
      if username == [] {
        return Apology("must provide username", 400), None;
      }
      if password == [] {
        return Apology("must provide password", 400), None;
      }
      if confirmation == [] {
        return Apology("must provide repeat password", 400), None;
      }
      var rows := Named(users, username);
      if |rows| > 0 {
        return Apology("username already exists", 400), None;
      }
      if password != confirmation {
        return Apology("password doesn't match", 400), None;
      }
      var id := nextId;
      RegisterKeepsConsistent(users, transactions, nextId, startingCash, username, hasher(password));
      users := users[id := User(username, hasher(password), startingCash)];
      nextId := nextId + 1;
      resp, session := Redirect("/"), Some(id);
    }

    /** POST /login; `check` stands for the password-hash check. */
    method Login(username: string, password: string, check: (string, string) -> bool)
      returns (resp: Response, session: Option<nat>)
      requires Valid()
      ensures username == [] ==> resp == Apology("must provide username", 403)
      ensures username != [] && password == [] ==> resp == Apology("must provide password", 403)
      ensures session.Some? <==>
                username != [] && password != []
                && exists id :: id in users && users[id].username == username && check(users[id].hash, password)
      ensures session.Some? ==>
                resp == Redirect("/") && session.value in users && users[session.value].username == username
      ensures session.None? && username != [] && password != [] ==>
                resp == Apology("invalid username and/or password", 403)
    {
      if username == [] {
        return Apology("must provide username", 403), None;
      }
      if password == [] {
        return Apology("must provide password", 403), None;
      }
      var rows := Named(users, username);
      if |rows| != 1 {
        forall id | id in users && users[id].username == username ensures false {
          NamedIsUnique(users, username, id);
        }
        return Apology("invalid username and/or password", 403), None;
      }
      var id :| id in rows;
      NamedIsUnique(users, username, id);
      if !check(users[id].hash, password) {
        return Apology("invalid username and/or password", 403), None;
      }
      return Redirect("/"), Some(id);
    }

    /** GET / for the logged-in `user`: the portfolio computed from the user's
        rows. Because basis is cost at trade time, the total always comes to
        the cash the user started with. */
    method Index(user: nat) returns (resp: Response)
      requires Valid()
      ensures user !in users ==> resp == Apology("Failed to retrieve user ID", 500)
      ensures user in users ==> resp.Page? && resp.summary.cash == users[user].cash
      ensures user in users ==> resp.summary.holding.Keys == resp.summary.shares.Keys
      ensures user in users ==>
                forall s :: s in resp.summary.shares <==> OfSymbol(OfUser(transactions, user), s) != []
      ensures user in users ==>
                forall s :: s in resp.summary.shares ==>
                  resp.summary.shares[s] == Held(transactions, user, s) && resp.summary.shares[s] >= 0
      ensures user in users ==>
                forall s :: s in resp.summary.holding ==>
                  resp.summary.holding[s] == Basis(OfSymbol(OfUser(transactions, user), s))
      ensures user in users ==>
                resp.summary.total == users[user].cash + Basis(OfUser(transactions, user))
                && resp.summary.total == startingCash
      ensures user in users && OfUser(transactions, user) == [] ==>
                resp.summary.total == resp.summary.cash && resp.summary.shares == map[]
    {
      if user !in users {
        return Apology("Failed to retrieve user ID", 500);
      }
      var rows := OfUser(transactions, user);
      var summary := Tally(users[user].cash, rows);
      forall s
        ensures s in summary.shares <==> OfSymbol(rows, s) != []
        ensures s in summary.holding <==> OfSymbol(rows, s) != []
      {
        BySymbolKeys(rows, s);
      }
      forall s | s in summary.shares
        ensures summary.shares[s] == Held(transactions, user, s)
      {
        SharesBySymbolSums(rows, s);
      }
      forall s | s in summary.holding
        ensures summary.holding[s] == Basis(OfSymbol(rows, s))
      {
        BasisBySymbolSums(rows, s);
      }
      resp := Page(summary);
    }
  }
}
