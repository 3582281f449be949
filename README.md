# Finance app ledger, modelled in Dafny

This project models the trading core of the finance app (`app.py`), a small
Flask site where users register, log in, buy and sell stock at quoted prices
and see their portfolio. The model has two tables:

- `users` maps an id to a username, a password hash and cash.
- `transactions` is an append-only sequence of rows: user id, symbol, price,
  and a signed share count (positive for a buy, negative for a sell).

The model covers these parts of the app:

- the form validators `validate_symbol` and `validate_shares`;
- the POST logic of `buy` and `sell`;
- the aggregation loop of `index`;
- the order of the checks in `register` and `login`.

Money is in integer cents. A form field that is missing is the empty string.
The quote service is an `Option<nat>` price parameter. Password hashing and
its check are function parameters.

Files:

- `validation.dfy` (module `Validation`): the validators, the integer parsing
  they rely on, and the upper-casing of symbols. It also has the written
  `validate_shares`, next to the corrected one (see Findings).
- `rows.dfy` (module `Rows`): the rows and the queries the routes run over
  them. These are the rows of a user, the rows of a symbol, their net share
  count and their cost basis, and how each changes when a row is appended.
- `portfolio.dfy` (module `Portfolio`): the loop of `index`, as a method
  proved against the per-symbol maps it builds.
- `ledger.dfy` (module `Finance`): the `Ledger` class holding both tables.
  - Its methods perform buy, sell, register, login and the portfolio page.
  - Buy and sell are proved equal to the specification functions `BuyEffect`
    and `SellEffect`.
  - The ledger invariant `Consistent` is kept by every request. It states
    that:
    - ids are below the next id and usernames are unique;
    - every row belongs to a user, names an upper-case ticker and moves a
      non-zero count;
    - cash is never negative;
    - every user's cash plus the basis of their rows is the cash they
      started with;
    - no (user, symbol) holding is negative.
- `scenarios.dfy` (module `Scenarios`): the scenarios of the app's unit tests,
  stated on the specification functions.

## Model

| member | source | states |
|---|---|---|
| `Validation.ValidateSymbol` | app.py:100-107 | an empty symbol gives ("must provide symbol", 400); otherwise a non-alphabetic one gives ("invalid symbol", 400); it passes exactly when the symbol is non-empty and alphabetic |
| `Validation.Upper` | app.py:148 | upper-casing keeps the length, turns every lower-case letter into its own capital and keeps every other character |
| `Validation.UpperIgnoresCase` | app.py:352 | two symbols that differ only in the case of their letters upper-case to the same symbol, so buy and sell reach one holding whatever case the form used |
| `Validation.AcceptedSymbolIsTicker` | app.py:148 | a symbol the validator accepts upper-cases to a non-empty upper-case ticker of the same length, and upper-casing it again changes nothing |
| `Validation.ParseInt` | app.py:112 | `int()` succeeds exactly on an optional sign followed by at least one decimal digit; a negative result comes only from a leading '-' |
| `Validation.ParseRoundTrip` | app.py:112 | parsing inverts decimal rendering: the text of n parses to n, with '+' to n, and with '-' to -n |
| `Validation.ValidateShares` | app.py:110-126 | (corrected) passes exactly when the text parses to an integer of at least 1; unparseable text is "invalid shares", 0 is "must provide shares", a negative value is "value must be greater than or equal to 1", all with 400 |
| `Validation.SharesAcceptsExactlyPositive` | app.py:110-126 | the text of n passes exactly when n >= 1; "0" is "must provide shares"; the text of -n is below the minimum |
| `Validation.ValidateSharesAsWritten` | app.py:110-126 | the validator as written passes only texts the corrected one passes, and fails with the same message wherever the corrected one fails |
| `Validation.AsWrittenAgreesOnExactCounts` | app.py:120-121 | on counts a double represents exactly, the written validator answers as the corrected one |
| `Validation.AsWrittenRejectsPositiveInteger` | app.py:120-121 | "9007199254740993" (2^53 + 1) is refused as "value must be a positive integer" by the written validator and accepted by the corrected one |
| `Validation.AsWrittenRaisesOnHugeCount` | app.py:120-124 | any count from 2^1024 - 2^970 on makes the written validator raise an uncaught `OverflowError`, although the corrected one accepts it |
| `Validation.ParseOrder` | app.py:138-148 | the symbol is validated before the count and each validator's own apology is returned; an accepted order carries the upper-cased ticker and the parsed count, which is at least 1 |
| `Rows.OfUserSelects` | app.py:57-58 | the rows of a user are exactly the rows that carry that user's id |
| `Rows.OfSymbolSelects` | app.py:361-363 | the rows of a symbol are exactly the rows that carry that symbol |
| `Rows.SymbolSelectsRows` | app.py:73 | a symbol selects some row exactly when some row carries it |
| `Rows.SumsAppend` | app.py:365-368 | an appended row adds its count to the net count and its price times count to the basis |
| `Rows.SymbolSumsAfterAppend` | app.py:79-88 | an appended row changes the net count and basis of its own symbol only |
| `Rows.HeldAfterAppend` | app.py:361-387 | an appended row changes the holding of its own (user, symbol) pair by its count, and no other holding |
| `Rows.BasisAfterAppend` | app.py:165-177 | an appended row changes the basis of its own user by its price times count, and no other user's |
| `Rows.NoRowsOfUser` | app.py:57-65 | a user with no rows has no selected rows, a holding of 0 in every symbol and a basis of 0 |
| `Portfolio.Tally` | app.py:54-88 | the loop returns the cash, the per-symbol count and basis maps built from the rows, and a total of cash plus every row's price times count; with no rows, the total is the cash |
| `Portfolio.BySymbolKeys` | app.py:79-86 | both maps have an entry for exactly the symbols some row carries |
| `Portfolio.SharesBySymbolSums` | app.py:83-86 | each symbol's count entry is the sum of the signed counts of that symbol's rows |
| `Portfolio.BasisBySymbolSums` | app.py:81-87 | each symbol's basis entry is the sum of price times count over that symbol's rows |
| `Finance.NamedIsUnique` | app.py:220-228 | with unique usernames, the query by username returns exactly the one user who carries the name |
| `Finance.TradeConservesCash` | app.py:165-177 | a row paid for out of its user's cash keeps every user's cash plus basis unchanged |
| `Finance.TradeKeepsHoldings` | app.py:361-371 | a row that leaves its own holding non-negative leaves every holding non-negative |
| `Finance.OnlyUsersHold` | app.py:361-371 | someone who is not a user holds nothing, because only users have rows |
| `Finance.TradeKeepsConsistent` | app.py:165-177 | appending a user's row paid without making that user's cash negative, and not selling more than is held, keeps the ledger consistent |
| `Finance.BuyEffect` | app.py:134-180 | a buy that does not go through changes neither table; one that goes through keeps the set of users and every old row in place and appends exactly one row |
| `Finance.SellEffect` | app.py:338-390 | a sell that does not go through changes neither table; one that goes through keeps the set of users and every old row in place and appends exactly one row |
| `Finance.BuyAnswers` | app.py:138-167 | buy answers in the source's order: the validators' apology, "invalid symbol" 400, "Failed to retrieve user ID" 500, then "can't afford" 400 when the cost exceeds the cash; it redirects exactly when the cost is at most the cash, so spending all of it is allowed |
| `Finance.SellAnswers` | app.py:342-371 | sell answers in the source's order: the validators' apology, "invalid symbol" 400, then "too many shares" 400 when the holding is below the count; it redirects exactly when the holding covers the count |
| `Finance.BuySettles` | app.py:165-177 | a buy that goes through appends the row (upper-cased symbol, quote price, +count) and lowers its user's cash by exactly price times count, leaving it non-negative. It touches no other user and adds the count to that user's holding of that symbol, and to no other holding |
| `Finance.SellSettles` | app.py:374-387 | in a consistent ledger, a sell that goes through is by a user. It appends the row with -count, raises that user's cash by exactly price times count, touches no other user, and takes the count off that one holding, which stays non-negative |
| `Finance.BuyKeepsConsistent` | app.py:134-180 | every buy request, whatever its inputs, keeps the ledger consistent, so cash never goes negative |
| `Finance.SellKeepsConsistent` | app.py:338-390 | every sell request, whatever its inputs, keeps the ledger consistent, so no holding goes negative |
| `Finance.RegisterKeepsConsistent` | app.py:298-312 | inserting a user whose name nobody has keeps the ledger consistent, and afterwards exactly the new id carries that name |
| `Finance.SumShares` | app.py:365-368 | the loop over the selected rows returns the sum of their signed counts |
| `Finance.Ledger.Buy` | app.py:134-180 | the response and both tables afterwards are those of `BuyEffect`; the invariant is kept |
| `Finance.Ledger.Sell` | app.py:338-390 | the response and both tables afterwards are those of `SellEffect`; the invariant is kept |
| `Finance.Ledger.Register` | app.py:281-326 | apologies in the source's order: missing username, password or repeat password, then a taken username, then a mismatch, each with 400 and no change. Otherwise it inserts exactly one user with the name, the hashed password and the starting cash under the next id, which becomes the session, and that id is the only one carrying the name |
| `Finance.Ledger.Login` | app.py:210-234 | a missing username or password is refused with 403. A session starts exactly when some user has the name and the hash check passes, and that user's id is the session. Otherwise the answer is "invalid username and/or password" 403 |
| `Finance.Ledger.Index` | app.py:40-97 | an unknown user gets "Failed to retrieve user ID" 500. Otherwise the page shows the user's cash and one entry per symbol the user has rows of, with count equal to the user's holding (never negative) and the basis of those rows. The total is cash plus basis, which is the starting cash; with no rows the total is the cash and there are no entries |
| `Scenarios.BuyWithinCash` | tests/test_buy.py:16-39 | the test's order (2 at $150.00 with $10,000.00) redirects; the lemma goes beyond the test, which posts "AAPL" and checks only the redirect: it posts "aapl", and shows that "AAPL" is recorded and $9,700.00 is left |
| `Scenarios.BuyLowerSellUpper` | app.py:148-371 | shares bought as "aapl" are sold back as "AAPL": the sell finds the holding of 2, restores the cash and leaves none |
| `Scenarios.BuyBeyondCash` | tests/test_buy.py:43-62 | the same order with $100.00 is "can't afford" 400 and changes nothing |
| `Scenarios.BuyAllCash` | app.py:165-167 | an order costing exactly the cash goes through and leaves 0 |
| `Scenarios.HoldingOfTwoRows` | tests/test_sell.py:21-22 | rows of 2 and 3 shares make a holding of 5 |
| `Scenarios.SellFromFive` | tests/test_sell.py:15-34 | selling 2 of a holding of 5 at $100.00 redirects, adds $200.00, and leaves 3 |
| `Scenarios.SellBeyondHolding` | tests/test_sell.py:38-55 | selling 2 of a holding of 1 is "too many shares" 400 and changes nothing |
| `Scenarios.PortfolioOfThreeRows` | tests/test_index.py:15-44 | AAPL $150.00 x1, GOOGL $2,000.00 x2, AAPL $300.00 x1 give 2 AAPL with basis $450.00, 2 GOOGL with basis $4,000.00, and $4,450.00 of basis in the total |

## Left out

- Floating point: prices and cash are exact integer cents. This leaves out
  `round(..., 2)` and the `"{:.2f}"` formatting of `index` and `sell`, and
  buy's unrounded float cost. In cents, buy and sell both compute the exact
  price times count.
- Python `int()` quirks: surrounding whitespace, `_` separators, non-ASCII
  digits and the 4300-digit conversion limit are not modelled.
- A missing `shares` field reaches `int(None)`, which raises a `TypeError`
  that the validator does not catch. The model treats a missing field as
  empty text, which gives "invalid shares".
- `str.isalpha` is modelled on ASCII letters only. An accepted symbol is
  upper-cased to `A`-`Z`.
- The current-price lookups of `index` (app.py:73-77) and the formatting of
  the page are not modelled. They call the quote service, which is not part
  of this model. The page is modelled as the count, basis and total maps.
- `lookup` and `apology` live in `helpers.py`, which is not part of this
  model. The quote is a parameter, and an apology is its message and status.
- The `history` and `quote` routes, `logout`, `login_required`, the session
  object, `after_request`, and the `db_module` wrapper over sqlite are not
  modelled. The tables are in-memory state, and the session is the id a
  method returns.
- Quotes are non-negative prices in cents (`Option<nat>`). A negative price
  from `lookup` would lower cash on a sell in the source (app.py:374-382);
  the model assumes the quote service never returns one.
- Password hashing (werkzeug) is not modelled: `hasher` and `check` are
  parameters.
- Concurrent requests are out of scope. Each request is one sequential step,
  so the read-check-write race between two trades is not modelled.
- The starting cash of a new user comes from the database schema, which is
  not part of this model. It is the `Ledger` constructor's parameter.
- `Finance.Ledger.Register`: the check of the newly inserted row and its
  "Failed to retrieve user ID" 500 branch (app.py:314-320) are not modelled.
  The insert just made that row, so the branch cannot be taken.

## Findings

| source | as written | input that shows it | evidently intended | confidence | as-written member | corrected member |
|---|---|---|---|---|---|---|
| app.py:120-121 | after `int()` succeeds, `shares != float(shares)` refuses every positive integer that a double cannot represent exactly, with "value must be a positive integer". From 2^1024 - 2^970 on, `float()` raises `OverflowError`, which `except ValueError` does not catch | shares = "9007199254740993" (2^53 + 1) | every integer of at least 1 passes | medium, not executed | `Validation.AsWrittenRejectsPositiveInteger` | `Validation.SharesAcceptsExactlyPositive` |

The rest of the model (`ParseOrder`, and through it buy and sell) uses the
corrected `Validation.ValidateShares`. `Validation.ValidateSharesAsWritten`
models the written validator, including the exception.
