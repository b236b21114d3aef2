# Storefront cart, checkout and product search, modelled in Dafny

This project models the customer side of a text-menu storefront client. The client talks to an
Oracle database. Two screens are modelled.

- **The on-line shop** (`OnlineCustomerInterface`). The cart is an ordered list of line items.
  Each line has a product id, a quantity, a maximum quantity and a unit price. Picking a product
  that is already in the cart edits that line and never adds a second one. A new product is
  added with a quantity in `[1, stock qty]`; the answer 0 cancels. Editing accepts a new
  quantity in `[0, maxQty]`, and 0 removes the line. The item count and the price total are
  sums over the lines. The main menu offers "View/Edit cart" and "Checkout" only for a
  non-empty cart. Checkout asks for confirmation, turns auto-commit off, and calls the stored
  procedure `purchase_product` once per line, in cart order. Then it always rolls back, because
  the flag that would let it commit is fixed to true. Then it turns auto-commit back on.
- **The product search** (`ProductSearchInterface`). The search term is lower-cased. Every
  character outside `a-z 0-9 _ - space # ( )` is deleted, and the term is trimmed. A term
  shorter than 3 characters is refused, and the user is asked again. An accepted term is queried
  with the LIKE pattern `"%" + term + "%"`. The user picks one of the matching rows, and that row
  becomes `chosenProduct`. If nothing was chosen, the screen offers to search again.

Files and modules:

- `objects.dfy`, module `Objects`: the value entities (`Product`, `Stock`, `CartItem`, an
  `Option` for Java's null) and Java's 32-bit `int` narrowing `ToInt`.
- `database.dfy`, module `Database`: the JDBC connection as a class. It has the real
  auto-commit flag and a ghost log of every call made on it. The log records
  `setAutoCommit`, `purchase_product` with its arguments, and `rollback`. It has a `commit`
  event too, but checkout never logs one, because its commit branch is dead code.
  The answer of `purchase_product` is left unconstrained (`r := *`). The procedure body lives
  in the database, and the call may also throw.
- `product_search.dfy`, module `ProductSearch`: cleaning the term, the length check, the
  pattern, the choice rule, and the screen as a class with `chosenProduct`.
- `online_customer.dfy`, module `OnlineCustomer`: the cart operations as specification
  functions, the totals, the menu gating, and the checkout call log. The screen is a class
  with the `cart` field. Its methods are proved against those functions.

Modelling choices:

- User answers and database results are parameters. This covers prompt answers, the menu pick,
  the rows a query returns, and the stock of a product. A number prompt only lets a value in its
  bounds through. In the model, an answer outside the bounds leaves the cart as it is.
- The repeated prompts of `search()` are modelled as a finite sequence of answers. If every
  answer is too short, no query is made. The program itself would keep asking.
- Prices are integer cents. The line total (`CartItem.getTotal`) is a parameter of
  `TotalCartPrice`, because the Java class `CartItem` is not part of this model.
- `totalCartItems` sums with Java `int` wrap-around. The model proves that it equals the exact
  sum narrowed to an `int`, and so equals the exact sum whenever that fits.
- `cart.remove(item)` and `item.setQty` act on the line the user picked. The model uses that
  line's index. This relies on one line per product, which every cart operation preserves.
- `checkout` calls `purchase_product` once per line, in cart order, then rolls back
  unconditionally, and leaves the cart as it was. The unit price of a new line is whatever
  `Stock` provides; `Stock` is given as input and is not modelled.
- An exception from `purchase_product` reaches a handler that only prints, so auto-commit
  stays off. `Checkout` returns the index of the line that threw. Its contract and
  `CheckoutAutoCommit` state that auto-commit is then still off.

## Model

| member | source | states |
|---|---|---|
| `Objects.ToInt` | src/com/johnkusner/cse241final/interfaces/customer/OnlineCustomerInterface.java:209-211 | Java int narrowing: the result is in the int range, and is the input itself when that fits |
| `Objects.ToIntCongruent` | src/com/johnkusner/cse241final/interfaces/customer/OnlineCustomerInterface.java:209-211 | the narrowed value differs from the exact one by a multiple of 2^32 |
| `Database.Connection.SetAutoCommit` | src/com/johnkusner/cse241final/interfaces/customer/OnlineCustomerInterface.java:121 | sets the flag and logs exactly that call |
| `Database.Connection.Rollback` | src/com/johnkusner/cse241final/interfaces/customer/OnlineCustomerInterface.java:157 | logs one rollback; the flag is unchanged |
| `Database.Connection.PurchaseProduct` | src/com/johnkusner/cse241final/interfaces/customer/OnlineCustomerInterface.java:123-137 | logs one purchase_product call with exactly the given product, quantity and price; the answer (amount got and paid, or an exception) is unconstrained |
| `Database.CountConcat` | src/com/johnkusner/cse241final/interfaces/customer/OnlineCustomerInterface.java:154-160 | occurrences of a call in a log add up over concatenation |
| `Database.AutoCommitAfterConcat` | src/com/johnkusner/cse241final/interfaces/customer/OnlineCustomerInterface.java:121-161 | replaying a log in two parts gives the same auto-commit flag as replaying it whole |
| `ProductSearch.ToLower` | src/com/johnkusner/cse241final/interfaces/ProductSearchInterface.java:61 | same length; each character is its ASCII lower case |
| `ProductSearch.Allowed` | src/com/johnkusner/cse241final/interfaces/ProductSearchInterface.java:62 | the character class the regex keeps: a-z, 0-9, `_`, `-`, space, `#`, `(`, `)`. It has no `ensures`; `RemoveDisallowedChar` and `RemoveDisallowedKeepsAllowed` pin down how cleaning uses it |
| `ProductSearch.RemoveDisallowed` | src/com/johnkusner/cse241final/interfaces/ProductSearchInterface.java:62 | the result holds only allowed characters, is no longer than the input, and is the input itself when the input is already clean |
| `ProductSearch.RemoveDisallowedChar` | src/com/johnkusner/cse241final/interfaces/ProductSearchInterface.java:62 | a single character is kept exactly when it is allowed |
| `ProductSearch.RemoveDisallowedConcat` | src/com/johnkusner/cse241final/interfaces/ProductSearchInterface.java:62 | cleaning a concatenation gives the concatenation of the cleaned parts; with the single-character case this fixes the result, so the kept characters keep their order and number |
| `ProductSearch.RemoveDisallowedKeepsAllowed` | src/com/johnkusner/cse241final/interfaces/ProductSearchInterface.java:62 | a character is in the result if and only if it is in the input and allowed |
| `ProductSearch.TrimStart` | src/com/johnkusner/cse241final/interfaces/ProductSearchInterface.java:62 | the result is a suffix of the input; everything cut is at or below ' '; the result does not start at or below ' ' |
| `ProductSearch.TrimEnd` | src/com/johnkusner/cse241final/interfaces/ProductSearchInterface.java:62 | the result is a prefix of the input; everything cut is at or below ' '; the result does not end at or below ' ' |
| `ProductSearch.Trim` | src/com/johnkusner/cse241final/interfaces/ProductSearchInterface.java:62 | both ends of the result are above ' '; a clean input stays clean; an input whose ends are already above ' ' is returned unchanged |
| `ProductSearch.Sanitize` | src/com/johnkusner/cse241final/interfaces/ProductSearchInterface.java:61-62 | the cleaned term holds only `a-z 0-9 _ - space # ( )` and has no leading or trailing space |
| `ProductSearch.SanitizeIdempotent` | src/com/johnkusner/cse241final/interfaces/ProductSearchInterface.java:61-62 | cleaning an already cleaned term returns it unchanged |
| `ProductSearch.TooShort` | src/com/johnkusner/cse241final/interfaces/ProductSearchInterface.java:64 | the test `searchTerm.length() < 3` on the cleaned term. It has no `ensures`; `ShortAnswerIsTooShort`, `SearchTermIsFirstLongEnough`, `NoTermOnlyIfAllTooShort` and `AllTooShortGivesNoTerm` pin down its role in the re-prompt |
| `ProductSearch.ShortAnswerIsTooShort` | src/com/johnkusner/cse241final/interfaces/ProductSearchInterface.java:61-64 | an answer of fewer than 3 characters is always refused, since cleaning never lengthens it |
| `ProductSearch.SearchTerm` | src/com/johnkusner/cse241final/interfaces/ProductSearchInterface.java:60-68 | a term that is accepted has at least 3 characters and is clean |
| `ProductSearch.SearchTermIsFirstLongEnough` | src/com/johnkusner/cse241final/interfaces/ProductSearchInterface.java:64-68 | the accepted term is the cleaned form of the first answer that is long enough |
| `ProductSearch.NoTermOnlyIfAllTooShort` | src/com/johnkusner/cse241final/interfaces/ProductSearchInterface.java:64-68 | no term is accepted only if every answer was too short |
| `ProductSearch.AllTooShortGivesNoTerm` | src/com/johnkusner/cse241final/interfaces/ProductSearchInterface.java:64-68 | when every answer is too short, no term is accepted and nothing is queried |
| `ProductSearch.LikePattern` | src/com/johnkusner/cse241final/interfaces/ProductSearchInterface.java:79 | the pattern is 2 longer than the term, starts and ends with '%', and its middle is the term |
| `ProductSearch.SearchPattern` | src/com/johnkusner/cse241final/interfaces/ProductSearchInterface.java:64-79 | every queried pattern wraps, in '%', a clean term of at least 3 characters; a pattern exists exactly when a term was accepted |
| `ProductSearch.Chosen` | src/com/johnkusner/cse241final/interfaces/ProductSearchInterface.java:95-106 | with no rows the previous choice stays; with rows the choice is one of the rows |
| `ProductSearch.ChosenIffRows` | src/com/johnkusner/cse241final/interfaces/ProductSearchInterface.java:95-106 | on a fresh screen a product is chosen if and only if at least one row exists |
| `ProductSearch.AfterOption` | src/com/johnkusner/cse241final/interfaces/ProductSearchInterface.java:45-90 | a changed choice is one of that option's rows; browsing by category makes no LIKE query |
| `ProductSearch.AfterRound` | src/com/johnkusner/cse241final/interfaces/ProductSearchInterface.java:32-35 | leaving the first menu changes nothing |
| `ProductSearch.OffersSearchAgain` | src/com/johnkusner/cse241final/interfaces/ProductSearchInterface.java:34-38 | "Search again?" is asked exactly when an option ran and `chosenProduct` is still null. It has no `ensures`; `RunOffersIffNothingChosen` states it about `RunResult`, and `Run` follows `RunResult` |
| `ProductSearch.RunResult` | src/com/johnkusner/cse241final/interfaces/ProductSearchInterface.java:25-43 | run() asks "Search again?" at most once per round, and not at all with no rounds |
| `ProductSearch.RunOffersIffNothingChosen` | src/com/johnkusner/cse241final/interfaces/ProductSearchInterface.java:34-41 | run() offers a new search if and only if an option ran and chosenProduct is still null; without an offer, run() ends in the state that option left |
| `ProductSearch.RunChoosesFromRows` | src/com/johnkusner/cse241final/interfaces/ProductSearchInterface.java:25-43 | after run(), chosenProduct is either what it was or one of the rows its queries returned |
| `ProductSearch.ProductSearchInterface.constructor` | src/com/johnkusner/cse241final/interfaces/ProductSearchInterface.java:18-22 | a new screen has no chosen product and has made no queries |
| `ProductSearch.ProductSearchInterface.ShowProducts` | src/com/johnkusner/cse241final/interfaces/ProductSearchInterface.java:92-107 | the menu lists exactly the rows, in order; chosenProduct becomes the picked row when there is a row and is untouched otherwise |
| `ProductSearch.ProductSearchInterface.BrowseByCategory` | src/com/johnkusner/cse241final/interfaces/ProductSearchInterface.java:45-58 | the screen's new state is AfterOption for the category's rows |
| `ProductSearch.ProductSearchInterface.Search` | src/com/johnkusner/cse241final/interfaces/ProductSearchInterface.java:60-90 | with no accepted term nothing changes; otherwise exactly one query with the term's pattern is made and the choice follows Chosen |
| `ProductSearch.ProductSearchInterface.Run` | src/com/johnkusner/cse241final/interfaces/ProductSearchInterface.java:25-43 | the new state and the number of offers are those of RunResult |
| `OnlineCustomer.ValidCart` | src/com/johnkusner/cse241final/interfaces/customer/OnlineCustomerInterface.java:102-111 | the cart invariant: every quantity in [1, maxQty] and one line per product. It has no `ensures`; `EditPreservesValid` and `AvailabilityPreservesValid` show that editing and `showAvailability` keep it, and `OnlineCustomerInterface.Valid` makes it a class invariant |
| `OnlineCustomer.FindItem` | src/com/johnkusner/cse241final/interfaces/customer/OnlineCustomerInterface.java:170 | the index of the first line with the product id, or none when no line has it |
| `OnlineCustomer.Edit` | src/com/johnkusner/cse241final/interfaces/customer/OnlineCustomerInterface.java:106-110 | 0 removes that line and keeps the rest in order; any other value replaces only that line's quantity and nothing else |
| `OnlineCustomer.EditPreservesValid` | src/com/johnkusner/cse241final/interfaces/customer/OnlineCustomerInterface.java:105-110 | an edit with a quantity in [0, maxQty] keeps every quantity in [1, maxQty] and one line per product |
| `OnlineCustomer.EditToZeroRemovesProduct` | src/com/johnkusner/cse241final/interfaces/customer/OnlineCustomerInterface.java:106-107 | after removing a line, no line holds its product |
| `OnlineCustomer.EditChangesSumQty` | src/com/johnkusner/cse241final/interfaces/customer/OnlineCustomerInterface.java:102-111 | an edit changes the exact item count by the new quantity minus the old one |
| `OnlineCustomer.NewItem` | src/com/johnkusner/cse241final/interfaces/customer/OnlineCustomerInterface.java:192 | the new line has the product's id, the wanted quantity, the stock quantity as maximum and the stock price |
| `OnlineCustomer.AfterAvailability` | src/com/johnkusner/cse241final/interfaces/customer/OnlineCustomerInterface.java:168-197 | the cart after `showAvailability`. It has no `ensures`; `AvailabilityRoutesToEdit`, `AvailabilityAddsNewProduct` and `AvailabilityPreservesValid` pin it down, and `OnlineCustomerInterface.ShowAvailability` is proved against it |
| `OnlineCustomer.AvailabilityRoutesToEdit` | src/com/johnkusner/cse241final/interfaces/customer/OnlineCustomerInterface.java:170-174 | a product already in the cart goes to the edit of its line; nothing is appended |
| `OnlineCustomer.AvailabilityAddsNewProduct` | src/com/johnkusner/cse241final/interfaces/customer/OnlineCustomerInterface.java:178-192 | for a new product, no stock, the answer 0 or an answer outside [0, stock qty] leaves the cart unchanged; an answer in [1, stock qty] appends exactly NewItem at the end; no other outcome is possible |
| `OnlineCustomer.AvailabilityPreservesValid` | src/com/johnkusner/cse241final/interfaces/customer/OnlineCustomerInterface.java:168-197 | showAvailability keeps at most one line per product and every quantity in [1, maxQty] |
| `OnlineCustomer.SumQtyConcat` | src/com/johnkusner/cse241final/interfaces/customer/OnlineCustomerInterface.java:209-211 | the exact item count is additive over concatenation |
| `OnlineCustomer.TotalCartItems` | src/com/johnkusner/cse241final/interfaces/customer/OnlineCustomerInterface.java:209-211 | the int stream sum is 0 for an empty cart, lies in the int range, equals the exact sum narrowed to an int, and equals the exact sum when that fits |
| `OnlineCustomer.TotalCartItemsConcat` | src/com/johnkusner/cse241final/interfaces/customer/OnlineCustomerInterface.java:209-211 | the item count of two carts put together is the int sum of their counts |
| `OnlineCustomer.TotalCartPrice` | src/com/johnkusner/cse241final/interfaces/customer/OnlineCustomerInterface.java:205-207 | the sum of the line totals: 0 for an empty cart, never negative when no line total is negative; with `TotalCartPriceSingle` and `TotalCartPriceConcat` the value is fixed |
| `OnlineCustomer.TotalCartPriceSingle` | src/com/johnkusner/cse241final/interfaces/customer/OnlineCustomerInterface.java:205-207 | the total of a one-line cart is that line's total |
| `OnlineCustomer.TotalCartPriceConcat` | src/com/johnkusner/cse241final/interfaces/customer/OnlineCustomerInterface.java:205-207 | the price total is additive over concatenation |
| `OnlineCustomer.PluralSuffix` | src/com/johnkusner/cse241final/interfaces/customer/OnlineCustomerInterface.java:221-223 | the suffix is empty exactly for the count 1 and is "s" for every other count |
| `OnlineCustomer.MenuOptions` | src/com/johnkusner/cse241final/interfaces/customer/OnlineCustomerInterface.java:54-58 | adding is always offered first; editing and checkout are offered if and only if the cart is non-empty |
| `OnlineCustomer.PurchaseCalls` | src/com/johnkusner/cse241final/interfaces/customer/OnlineCustomerInterface.java:125-137 | one purchase_product call per line, in cart order, with that line's product, quantity and price |
| `OnlineCustomer.CheckoutLog` | src/com/johnkusner/cse241final/interfaces/customer/OnlineCustomerInterface.java:121-164 | the calls checkout makes after confirmation, on the normal path and when the k-th purchase throws. It has no `ensures`; `CheckoutCallsEveryLineInOrder`, `CheckoutNeverCommits`, `CheckoutPurchaseCount` and `CheckoutAutoCommit` pin it down, and `OnlineCustomerInterface.Checkout` is proved against it |
| `OnlineCustomer.CheckoutCallsEveryLineInOrder` | src/com/johnkusner/cse241final/interfaces/customer/OnlineCustomerInterface.java:121-161 | on the normal path the calls are: auto-commit off, one purchase per line in order, one rollback, auto-commit on |
| `OnlineCustomer.CheckoutNeverCommits` | src/com/johnkusner/cse241final/interfaces/customer/OnlineCustomerInterface.java:154-160 | checkout never commits; it rolls back exactly once on the normal path and never after a purchase threw |
| `OnlineCustomer.CheckoutPurchaseCount` | src/com/johnkusner/cse241final/interfaces/customer/OnlineCustomerInterface.java:125-152 | exactly one purchase call per line on the normal path, and per line up to the one that threw otherwise |
| `OnlineCustomer.CheckoutAutoCommit` | src/com/johnkusner/cse241final/interfaces/customer/OnlineCustomerInterface.java:121-164 | auto-commit is off during every purchase call; at the end it is on after the normal path and still off after a purchase threw |
| `OnlineCustomer.OnlineCustomerInterface.constructor` | src/com/johnkusner/cse241final/interfaces/customer/OnlineCustomerInterface.java:34-41 | a session starts with an empty cart |
| `OnlineCustomer.OnlineCustomerInterface.EditItem` | src/com/johnkusner/cse241final/interfaces/customer/OnlineCustomerInterface.java:102-111 | an answer is accepted exactly when it is in [0, maxQty]; an accepted answer gives the cart Edit, a refused one leaves it unchanged; the cart stays valid |
| `OnlineCustomer.OnlineCustomerInterface.EditCart` | src/com/johnkusner/cse241final/interfaces/customer/OnlineCustomerInterface.java:85-100 | leaving the menu changes nothing; picking a line edits that line |
| `OnlineCustomer.OnlineCustomerInterface.ShowAvailability` | src/com/johnkusner/cse241final/interfaces/customer/OnlineCustomerInterface.java:168-197 | the new cart is AfterAvailability of the old one, and it stays valid |
| `OnlineCustomer.OnlineCustomerInterface.SearchProduct` | src/com/johnkusner/cse241final/interfaces/customer/OnlineCustomerInterface.java:74-83 | the cart changes only through showAvailability of the product a fresh search screen chose |
| `OnlineCustomer.OnlineCustomerInterface.Checkout` | src/com/johnkusner/cse241final/interfaces/customer/OnlineCustomerInterface.java:113-166 | needs a non-empty cart, as the menu offers it only then; declining makes no call and changes nothing; after confirming, the calls are exactly CheckoutLog and auto-commit ends on only on the normal path; the cart is never changed |

## Left out

- The database and the terminal: JDBC statements, result-set iteration, out-parameter
  registration and SQL text are replaced by parameters (rows, stock, purchase answers).
  Prompts, menus, `clear`, `pause` and printing are replaced by the user's answers as parameters.
- `Database.Connection.PurchaseProduct`: only the purchase call can throw in the model. An
  exception from `setAutoCommit`, `prepareCall` or `rollback` is not modelled.
- `Checkout`: the dead `commit()` branch is not written, since `problem` is always true. Its
  absence is what `CheckoutNeverCommits` states.
- The exception handlers of `showAvailability`, `search` and `browseByCategory` are not
  modelled. A category browser that chose no category is covered by calling `BrowseByCategory`
  with no rows.
- The recursive redisplay of the main menu in `showMenu` is not modelled as a loop. Only its
  gating (`MenuOptions`) and the precondition of `Checkout` are.
- `getCartStatusMessage`, `numberFormat` and `moneyFormat` are left out: they are locale
  formatting.
- `TotalCartPrice`: sums exact integer cents instead of Java `double`s. Floating-point
  rounding and compensated summation are not modelled.
- The Java classes `CartItem`, `Stock`, `Product` and `Menu` are not part of this model; only
  their data appears, as the datatypes of `objects.dfy`. The behaviour of those classes is not
  modelled. The line total is a parameter. The stock of a product is given as its available quantity and quoted price. The
  menu pick is assumed to be one of the listed rows (`PickInRange`).
- `ProductSearch.ToLower`: ASCII only. Java's locale-dependent `toLowerCase` can map some
  non-ASCII characters to ASCII ones (the Kelvin sign to 'k'), and in a Turkish locale it maps
  'I' to a dotless i, which is then deleted. These cases are not modelled.
- `ProductSearch.SearchTerm`: the user's answers are a finite sequence. When they run out, no
  query is made; the program itself would go on prompting.
- Opening the database connection happens outside the modelled files. The interfaces receive
  an open connection, in whatever auto-commit state earlier use left it.
  `Database.Connection.constructor` builds such a connection from that state and has no row in
  the table.
- `ChooseInterfaceInterface` (menu dispatch), `Inventory` (a record with a formatted string)
  and the product test-data generator are not part of this model.
