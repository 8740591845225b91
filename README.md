# India Electronics Mart billing: a Dafny model

This project models the core of a single-store billing application. It has three parts:

- the **product catalog**: the `products` table, with a UNIQUE `name` column. The application inserts rows into it (a duplicate name is silently ignored), updates a price by name, deletes by name, and lists the rows ordered by name;
- the **cart and pricing**: the session's cart list that "Add to Cart" appends to and "Clear Cart" empties, the per-line total `price * qty * (1 - discount/100) * (1 + gst/100)` and the grand total as the sum of the line totals;
- the **bill store**: the append-only `bills` table with an AUTOINCREMENT id, the "Generate Bill" step that saves a non-empty cart with its grand total, and the search over customer name and phone.

Modules, one per component:

- `Text` (`text.dfy`): name order (the BINARY collation) and the substring test behind `LIKE '%q%'`.
- `Pricing` (`pricing.dfy`): cart lines, line total and grand total. These are pure functions with lemmas.
- `Catalog` (`catalog.dfy`): the product table as a sequence of rows in storage order. Each SQL statement is a pure function on that sequence, with lemmas about it. The class `ProductTable` changes its `rows` field in place through those functions.
- `Cart` (`cart.dfy`): the class `CartSession`, whose `entries` field is appended to and reset.
- `Bills` (`bills.dfy`): the class `BillStore` (rows plus the AUTOINCREMENT counter), bill search, and `GenerateBill`.

Two behaviours of the code that are easy to get wrong:

- "Generate Bill" does not clear the cart. It saves the bill and shows a success message (indiamartbillingapp.py:174-176), but never resets `st.session_state.cart`. `Bills.GenerateBill` therefore leaves the cart unchanged, and a second click saves a second bill with the same lines.
- The "Generate Bill" button is only shown while the cart is non-empty (indiamartbillingapp.py:166), so no bill is ever saved for an empty cart. `Bills.GenerateBill` returns `saved == false` and changes nothing in that case.

## Model

| member | source | states |
|---|---|---|
| `Catalog.ProductTable.constructor` | indiamartbillingapp.py:16-20 | A freshly created `products` table is empty, so it trivially has unique names and non-negative prices. |
| `Catalog.ProductTable.GetProducts` | indiamartbillingapp.py:40-46 | The listing is strictly ascending by name and is a permutation of the table's rows, so every row appears exactly once. Looking up any name in the listing gives the table's price. |
| `Catalog.SortedByName` | indiamartbillingapp.py:43 | The sorted listing has the same multiset of rows as the table. |
| `Catalog.SortedByNameSorted` | indiamartbillingapp.py:43 | If the names are unique, the listing is strictly ascending by name. |
| `Catalog.ListingPrice` | indiamartbillingapp.py:145-154 | With unique names, `dict(products)[name]` on the listing gives the same price as the table. |
| `Catalog.PriceOf` | indiamartbillingapp.py:154 | A lookup succeeds exactly when a row has that name, and the row it reports is in the table. |
| `Catalog.Added` | indiamartbillingapp.py:48-56 | If the name is taken, the table is unchanged. Otherwise exactly one row `(name, price)` is appended and earlier rows are kept. |
| `Catalog.AddedKeepsUnique` | indiamartbillingapp.py:16-20 | An add keeps the UNIQUE constraint on names. |
| `Catalog.AddedPrices` | indiamartbillingapp.py:51-55 | As a name-to-price dictionary, an add sets only a new name's price. A name already present keeps its original price. |
| `Catalog.AddTwiceIsAddOnce` | indiamartbillingapp.py:51-55 | Adding a name a second time, at any price, is a no-op. |
| `Catalog.ProductTable.AddProduct` | indiamartbillingapp.py:48-56 | The new table is `Added(old rows)`: unchanged for a taken name, otherwise the old rows plus one. Names stay unique and prices non-negative. |
| `Catalog.Repriced` | indiamartbillingapp.py:61 | Rows keep their positions and names. Only rows with the given name get the new price. |
| `Catalog.RepricedMissingIsNoop` | indiamartbillingapp.py:61 | Updating a name that is absent leaves the table unchanged. |
| `Catalog.RepricedKeepsUnique` | indiamartbillingapp.py:61 | An update keeps names unique. |
| `Catalog.RepricedPrices` | indiamartbillingapp.py:61 | As a dictionary, an update changes only that name's price, and only if the name is present. |
| `Catalog.ProductTable.UpdateProductPrice` | indiamartbillingapp.py:58-63 | The new table is `Repriced(old rows)`, and it is unchanged when the name is missing. |
| `Catalog.Removed` | indiamartbillingapp.py:68 | The result holds exactly the rows whose name differs from the deleted one. It is unchanged when the name is absent. |
| `Catalog.RemovedCount` | indiamartbillingapp.py:68 | With unique names, deleting a name that is present removes exactly one row. |
| `Catalog.RemovedKeepsUnique` | indiamartbillingapp.py:68 | A delete keeps names unique. |
| `Catalog.RemovedPrices` | indiamartbillingapp.py:68 | As a dictionary, a delete removes that name and changes no other price. |
| `Catalog.ProductTable.DeleteProduct` | indiamartbillingapp.py:65-70 | The new table is `Removed(old rows)`: one row fewer when the name was present, unchanged otherwise. |
| `Catalog.ApplyAllKeepsUnique` | indiamartbillingapp.py:48-70 | Product names stay unique after any sequence of adds, updates and deletes. |
| `Pricing.LineTotal` | indiamartbillingapp.py:168 | Within the form's ranges, a line total lies between 0 and 1.5 times price times quantity. It is 0 at a 100% discount. |
| `Pricing.LineTotalIsNetPlusGst` | indiamartbillingapp.py:168 | The line total equals the discounted net amount plus GST charged on that net amount. |
| `Pricing.LineTotalMonotoneInQty` | indiamartbillingapp.py:168 | A larger quantity never lowers the line total. |
| `Pricing.LineTotalAntitoneInDiscount` | indiamartbillingapp.py:168 | A larger discount never raises the line total. |
| `Pricing.LineTotalExample` | indiamartbillingapp.py:168 | Price 1000, quantity 2, 10% discount and 18% GST give 2124. |
| `Pricing.TotalColumn` | indiamartbillingapp.py:168 | The "Total" column has one non-negative value per cart line. |
| `Pricing.GrandTotal` | indiamartbillingapp.py:171 | The grand total is non-negative, and 0 for an empty cart. |
| `Pricing.GrandTotalAppend` | indiamartbillingapp.py:171 | Appending a line raises the grand total by exactly that line's total. |
| `Pricing.GrandTotalFirstPlusRest` | indiamartbillingapp.py:171 | The grand total is the first line's total plus the grand total of the other lines, i.e. the sum of all line totals. |
| `Pricing.GrandTotalSingle` | indiamartbillingapp.py:171 | A one-line cart's grand total is that line's total. |
| `Cart.CartSession.constructor` | indiamartbillingapp.py:100-101 | A session's cart starts empty. |
| `Cart.CartSession.AddToCart` | indiamartbillingapp.py:153-161 | One line is appended at the end and earlier lines are unchanged. The new line carries the selected product's current catalog price and the chosen quantity, discount and GST. The grand total grows by that line's total. |
| `Cart.CartSession.Clear` | indiamartbillingapp.py:163-164 | The cart becomes empty, and its grand total becomes 0. |
| `Bills.BillStore.constructor` | indiamartbillingapp.py:23-31 | A freshly created `bills` table is empty and its AUTOINCREMENT counter is 0, so the first bill gets number 1. |
| `Bills.BillStore.SaveBill` | indiamartbillingapp.py:74-80 | Exactly one bill with the given fields is appended. Its id is the counter plus one, greater than every earlier id. Earlier bills are unchanged. |
| `Bills.GenerateBill` | indiamartbillingapp.py:166-176 | A bill is saved exactly when the cart is non-empty. It carries the cart and the cart's grand total, and gets an id above every earlier one. With an empty cart the store is unchanged. |
| `Bills.Matching` | indiamartbillingapp.py:85 | A bill is in the result exactly when it is stored and its name or phone contains the query. The result is never longer than the store. |
| `Bills.MatchingCount` | indiamartbillingapp.py:85 | A matching bill appears in the result exactly as many times as it is stored. A non-matching bill does not appear at all. |
| `Bills.MatchingNoDuplicates` | indiamartbillingapp.py:85 | If no bill is stored twice, no bill appears twice in the result. |
| `Bills.BillStore.SearchBills` | indiamartbillingapp.py:82-88 | It returns exactly the stored bills whose customer name or phone contains the query, each exactly once. Stored bills have distinct numbers. |
| `Bills.MatchingAppend` | indiamartbillingapp.py:77-85 | After a save, a search returns its earlier result, followed by the new bill if that bill matches. |
| `Bills.SavedBillIsFound` | indiamartbillingapp.py:82-88 | A newly saved bill is found by any substring of its customer name or of its phone. |
| `Bills.MatchingEmptyQuery` | indiamartbillingapp.py:85 | An empty query matches every bill. |

## Left out

- Connection handling (`get_connection`, commit and close) is not modelled. The tables are fields of `ProductTable` and `BillStore`, and the constructors of those classes stand for `init_db` creating the empty tables. `CREATE TABLE IF NOT EXISTS` on an existing database keeps its rows; the model starts from empty tables only.
- The Streamlit screens, page routing and widgets are not modelled, except the cart list and the form's input ranges. The ranges are preconditions: quantity 1..100, discount 0..100, GST 0..50, price at least 0.
- Amounts are exact reals. Float rounding and the two-decimal display are not modelled.
- The product table's `id` column is left out. Rows are kept in storage order instead, and no query reads the id.
- `Bills.BillStore.SaveBill` takes the timestamp as a parameter, because the clock is outside the model. It stores the cart lines themselves rather than their Python text form (`str(items)`).
- `Bills.BillStore.SearchBills` is case-sensitive and treats `%` and `_` in the query as ordinary characters. SQLite's `LIKE` ignores ASCII case and treats those two as wildcards. The result is in storage order; the query itself has no ORDER BY.
- `Cart.CartSession.AddToCart` requires the selected name to be in the catalog. In the application the selection box offers exactly the names of the listing read at indiamartbillingapp.py:145, and the price is looked up in that same listing at indiamartbillingapp.py:154, so the lookup always succeeds. If another session deletes or reprices the product after that listing is read, the application still uses the listed price. The model reads the listing and the price in one step, so that stale price is not modelled.
- `Bills.BillStore.SaveBill`: bill numbers are unbounded `nat`. The `bill_id` column (indiamartbillingapp.py:24) is SQLite's 64-bit AUTOINCREMENT rowid, and once the largest value 9223372036854775807 has been used, every further insert fails. That failure is not modelled.
- PDF invoice, download link, print button and messaging link (indiamartbillingapp.py:178-233) are output formatting built on foreign libraries, and are not modelled.
- Concurrent sessions writing to the same database file are not modelled. The application has no locking.
