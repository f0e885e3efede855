# Indigo Creaciones storefront: cart, catalog and checkout in Dafny

This project models the client-side logic of the Indigo Creaciones shop, a
Next.js storefront for handmade plaster pieces and candles. It covers three
parts.

- **The cart** (`context/CartContext.tsx`):
  - the reducer over `{items, total}` with `ADD_ITEM`, `REMOVE_ITEM`,
    `UPDATE_QUANTITY`, `CLEAR_CART` and `HYDRATE`;
  - the provider's commands `addItem`, `removeItem`, `updateQuantity` and
    `clearCart`;
  - the one-time hydration from the browser's storage, and the write back
    to storage after every change once hydration is done.
- **The catalog page** (`pages/productos.tsx`):
  - `normalizeText` and the normaliser applied to the listing response;
  - the category, search and price filter;
  - the stable sort by name or price;
  - pagination at 12 products per page, with the page buttons;
  - the query-string handling;
  - the price a product is added to the cart and quoted at.
- **The cart view** (`components/CartModal.tsx`):
  - the −/+ buttons of each line;
  - the shipping dialog, which asks whether to ship and where;
  - the WhatsApp order text composed from the cart.

The files are:

| file | module | contents |
|---|---|---|
| `common.dfy` | `Common` | `Option`, how JavaScript renders an integer (`${n}`) and reading it back, `join`/`split`, `includes`, `Array.prototype.slice` |
| `cart_reducer.dfy` | `CartReducer` | the reducer as functions; what each action does; the invariant `total == Σ price × quantity` with unique ids |
| `cart_context.dfy` | `CartContext` | the command layer (`Dispatched`, `Step`), storage snapshots, the `CartProvider` class |
| `catalog.dfy` | `Catalog` | text normalisation, product normaliser, filter, sort, pagination, effective price |
| `products_page.dfy` | `ProductsPage` | the page's state cells as a class, with the fetch and control handlers |
| `cart_modal.dfy` | `CartModal` | order text and reading it back, the `ShippingDialog` class, the −/+ buttons |

Where the code differs from what one would expect of it, the model
follows the code:

- A failed fetch replaces the product list with the empty list
  (pages/productos.tsx:108-110); it does not keep the last good list.
- `updateQuantity` does not check that a quantity is non-negative
  (context/CartContext.tsx:149-159). Only the −/+ buttons keep their
  requests at 0 or above, so the lemma about positive quantities assumes
  non-negative requests.
- A page number of 0 or below can arrive through the query string
  (pages/productos.tsx:158-159). `slice` then counts from the end of the
  list, and the model keeps that behaviour.
- The provider dispatches to the reducer as written
  (`CartReducer.ReduceAsWritten`, wrapped by `ReduceWithHydrate`), and the
  command layer (`CartContext.Step`) uses it too. That reducer has the defect
  described under "## Findings". The corrected reducer
  (`CartReducer.Reduce`) and the commands on top of it
  (`CartContext.IntendedStep`) state what was intended.

## Model

| member | source | states |
|---|---|---|
| CartReducer.Find | context/CartContext.tsx:60-61 | `find` by id returns the first index holding the id; it returns nothing exactly when no line has the id |
| CartReducer.IncrementWhere | context/CartContext.tsx:43-47 | the map of ADD_ITEM: same length; lines with the id get one more unit, all others are untouched |
| CartReducer.SetQuantityWhere | context/CartContext.tsx:78-82 | the map of UPDATE_QUANTITY: same length; lines with the id get the new quantity, all others are untouched |
| CartReducer.RemoveWhere | context/CartContext.tsx:65 | the filter of REMOVE_ITEM keeps exactly the lines with another id, in their order (an order-preserving subsequence) |
| CartReducer.RemoveWhereAt | context/CartContext.tsx:65 | with unique ids, the filter removes exactly the k-th line and keeps the others in order |
| CartReducer.SetQuantityWhereAt | context/CartContext.tsx:78-82 | with unique ids, the map changes only the k-th line |
| CartReducer.ReduceAsWritten | context/CartContext.tsx:35-99 | the program's reducer: ADD_ITEM always adds the payload's price to the total; REMOVE_ITEM and UPDATE_QUANTITY on an absent id return the state unchanged; CLEAR_CART empties the cart. Per action it is pinned by AddPresent, AddNew, RemovePresent and UpdatePresent |
| CartReducer.Reduce | context/CartContext.tsx:35-99 | the corrected reducer (see "## Findings"); ReducePreservesConsistency states its invariant and AsWrittenAgreesUnlessRepriced relates it to the program's reducer |
| CartReducer.ReduceWithHydrate | context/CartContext.tsx:102-107 | HYDRATE is intercepted and returns its payload; every other action goes to the reducer |
| CartReducer.AddPresent | context/CartContext.tsx:38-49 | ADD_ITEM on a present id bumps only that line by 1. As written the total grows by the payload's price; corrected, by the line's own price |
| CartReducer.AddNew | context/CartContext.tsx:52-56 | ADD_ITEM on a new id appends one line at the end with quantity 1, whatever the payload's quantity, and adds the payload's price |
| CartReducer.RemoveAbsent | context/CartContext.tsx:60-61 | REMOVE_ITEM on an absent id returns the state unchanged |
| CartReducer.RemovePresent | context/CartContext.tsx:59-68 | REMOVE_ITEM on a present id drops that line, keeps the others in order and subtracts price × quantity |
| CartReducer.UpdateAbsent | context/CartContext.tsx:71-72 | UPDATE_QUANTITY on an absent id is a no-op |
| CartReducer.UpdatePresent | context/CartContext.tsx:70-85 | UPDATE_QUANTITY sets only that line's quantity and moves the total by price × (new − old) |
| CartReducer.ClearAndHydrate | context/CartContext.tsx:87-94 | CLEAR_CART yields the empty cart with total 0; HYDRATE yields its payload |
| CartReducer.AddKeepsConsistency | context/CartContext.tsx:37-57 | the corrected ADD_ITEM (`Reduce`, charging the incremented line's own price) keeps ids unique and total == Σ price × quantity; the program's ADD_ITEM does not (see "## Findings") |
| CartReducer.RemoveKeepsConsistency | context/CartContext.tsx:59-68 | REMOVE_ITEM keeps ids unique and total == Σ price × quantity |
| CartReducer.UpdateKeepsConsistency | context/CartContext.tsx:70-85 | UPDATE_QUANTITY keeps ids unique and total == Σ price × quantity |
| CartReducer.ReducePreservesConsistency | context/CartContext.tsx:35-99 | the corrected reducer (`Reduce`), from a consistent cart, yields a consistent cart for every action except HYDRATE |
| CartReducer.HydrateConsistentIff | context/CartContext.tsx:93-104 | HYDRATE, whether `cartReducerWithHydrate` intercepts it or the reducer's own case handles it, yields a consistent cart if and only if its snapshot is consistent |
| CartReducer.AsWrittenAgreesUnlessRepriced | context/CartContext.tsx:38-49 | the reducer as written and the corrected one give the same state on every action except re-adding a present product at a different price |
| CartReducer.RepricedAddBreaksTotal | context/CartContext.tsx:38-49 | counterexample: re-adding a line priced 100 at a sale price of 80 leaves total 180 while the line is 2 × 100 |
| CartReducer.AddTwiceThenRemove | context/CartContext.tsx:35-104 | through the reducer the provider installs, adding a product twice and then removing it goes from the empty cart to quantity 1 with total 100, then quantity 2 with total 200, then back to empty |
| CartContext.Dispatched | context/CartContext.tsx:136-164 | `addItem` always dispatches ADD_ITEM with quantity 1; `removeItem` and `updateQuantity` dispatch exactly when the id is in the cart, as REMOVE_ITEM of that id, or UPDATE_QUANTITY with the id and quantity; `updateQuantity` turns into a removal exactly for quantity 0; `clearCart` always dispatches CLEAR_CART |
| CartContext.Step | context/CartContext.tsx:136-164 | a command applied through the program's reducer; ZeroQuantityRemovesLine, UnknownIdDispatchesNothing, StepPreservesConsistency and AddRaisesItemCountByOne state what it does |
| CartContext.IntendedStep | context/CartContext.tsx:136-164 | the same commands over the corrected reducer; IntendedStepPreservesConsistency states its invariant |
| CartContext.ZeroQuantityRemovesLine | context/CartContext.tsx:149-158 | `updateQuantity(id, 0)` on a present id does exactly what `removeItem(id)` does |
| CartContext.UnknownIdDispatchesNothing | context/CartContext.tsx:141-158 | remove and update with an unknown id dispatch nothing and leave the cart unchanged |
| CartContext.StepPreservesConsistency | context/CartContext.tsx:136-164 | every command of the program keeps a consistent cart consistent, except `addItem` of a product already in the cart at a price other than its line's |
| CartContext.IntendedStepPreservesConsistency | context/CartContext.tsx:136-164 | with the corrected reducer, every command keeps a consistent cart consistent |
| CartContext.RepricedAddItemBreaksCart | context/CartContext.tsx:136-139 | the program's `addItem` of a product re-priced from 100 to 80 turns a consistent cart into one with total 180 and Σ price × quantity 200 |
| CartContext.StepKeepsQuantitiesPositive | context/CartContext.tsx:136-164 | commands with non-negative quantities never leave a line with quantity below 1 |
| CartReducer.ItemCount | components/Header.tsx:80 | the badge count `reduce((acc, item) => acc + item.quantity, 0)`: never negative when no quantity is, and at least one per line when every quantity is at least 1 |
| CartContext.AddRaisesItemCountByOne | components/Header.tsx:80 | `addItem` raises the header badge (Σ quantity) by exactly one |
| CartContext.Snapshot | context/CartContext.tsx:130-134 | the value the persisting effect writes, `{items, total}` of the state; RestoreInvertsSnapshot states that hydration reads it back |
| CartContext.Restore | context/CartContext.tsx:116-122 | the hydration check: a parsed, truthy value with `items` and a defined `total` is restored, anything else is not; RestoreInvertsSnapshot states when it restores a given cart |
| CartContext.RestoreInvertsSnapshot | context/CartContext.tsx:116-122 | the hydration check accepts a stored value and restores cart s exactly when it is the snapshot the provider writes for s |
| CartContext.CartProvider.constructor | context/CartContext.tsx:110-111 | the provider starts with the empty cart, not hydrated, with storage untouched |
| CartContext.CartProvider.Persist | context/CartContext.tsx:130-134 | storage is written with the whole cart only once hydrated; before that it is left as it was |
| CartContext.CartProvider.Dispatch | context/CartContext.tsx:111 | the state becomes the result of `cartReducerWithHydrate`, the reducer the provider installs, and the persistence effect follows it |
| CartContext.CartProvider.Hydrate | context/CartContext.tsx:114-127 | an acceptable snapshot replaces the cart, anything else keeps it; afterwards the provider is hydrated and storage holds the cart |
| CartContext.CartProvider.AddItem | context/CartContext.tsx:136-139 | dispatches ADD_ITEM with quantity 1 to the program's reducer; storage is unchanged before hydration |
| CartContext.CartProvider.RemoveItem | context/CartContext.tsx:141-147 | dispatches REMOVE_ITEM only for a present id |
| CartContext.CartProvider.UpdateQuantity | context/CartContext.tsx:149-159 | unknown id: nothing; quantity 0: removal; otherwise UPDATE_QUANTITY |
| CartContext.CartProvider.ClearCart | context/CartContext.tsx:161-164 | dispatches CLEAR_CART |
| Common.IntDecimalRoundTrip | components/CartModal.tsx:120 | an integer rendered as text reads back as the same integer |
| Common.SplitJoin | components/CartModal.tsx:119-121 | lines without line breaks, joined with newlines, split back into the same lines |
| Common.JoinSplit | components/CartModal.tsx:119-121 | splitting at a separator and joining again gives back the text |
| Common.Includes | pages/productos.tsx:183 | `includes` holds exactly when the needle occurs at some offset |
| Common.Slice | pages/productos.tsx:194 | `slice` with non-negative in-order bounds is the sub-sequence between the clamped bounds; for any bounds it is no longer than end − start, and holds only elements of the input |
| Catalog.Lower | pages/productos.tsx:56 | `toLowerCase` on ASCII and Latin-1 capitals; LowerIdempotent and FoldLetter state its behaviour |
| Catalog.Fold | pages/productos.tsx:54-59 | one character normalises to nothing exactly when its lower case is a diacritic; an accented letter becomes its base letter; any other character becomes its lower case; the result is left as it is by normalisation |
| Catalog.StripDiacritics | pages/productos.tsx:58 | drops exactly the characters with the Diacritic property and keeps every other one, in order; a single character is dropped exactly when it is a diacritic |
| Catalog.StripDiacriticsAppend | pages/productos.tsx:58 | stripping a concatenation strips each part; with the one-character case this fixes the result exactly |
| Catalog.StripDiacriticsCounts | pages/productos.tsx:58 | every character other than a diacritic keeps all its copies, and diacritics keep none |
| Catalog.Normalize | pages/productos.tsx:54-59 | never longer than its input; every character of the result is lower case, undecomposable and not a diacritic |
| Catalog.NormalizeLetterByLetter | pages/productos.tsx:54-59 | a text with no diacritics normalises character by character, each character to its single folded character |
| Catalog.NormalizeAppend | pages/productos.tsx:54-59 | normalisation works character by character: it distributes over concatenation |
| Catalog.NormalizeIdempotent | pages/productos.tsx:54-59 | normalising twice is normalising once |
| Catalog.AccentedNameNormalizes | pages/productos.tsx:54-59 | "Ofrendás" normalises to "ofrendas" |
| Catalog.CapitalSearchNormalizes | pages/productos.tsx:54-59 | "OFRENDÁS" normalises to "ofrendas" |
| Catalog.PlainNameNormalizes | pages/productos.tsx:54-59 | "ofrendas" is left as it is |
| Catalog.SearchIgnoresAccentsAndCase | pages/productos.tsx:183 | searching "ofrendas" or "OFRENDÁS" finds the product named "Ofrendás" |
| Catalog.EmptySearchMatchesAll | pages/productos.tsx:183 | an empty search term matches every name |
| Catalog.NormalizeImages | pages/productos.tsx:83-93 | a string image becomes an image with an empty public id; an object with a non-empty url is kept; every result image comes from one of those two |
| Catalog.NormalizeImagesAppend | pages/productos.tsx:83-93 | the image normaliser works entry by entry, so it distributes over concatenation |
| Catalog.NormalizeProduct | pages/productos.tsx:95-102 | `id` comes from `_id`; name, category, description, price and sale price pass through; images are the normalised images, none when missing; `featured`/`onSale` are true only when set to true |
| Catalog.NormalizeAll | pages/productos.tsx:82-103 | the listing normaliser maps every product, in order, one for one |
| Catalog.EffectivePrice | pages/productos.tsx:209 | the sale price when the product is on sale with a non-zero sale price, otherwise the list price |
| Catalog.ZeroSalePriceFallsBack | pages/productos.tsx:209 | a sale price of 0 falls back to the list price |
| Catalog.CartPayload | pages/productos.tsx:204-211 | the cart receives the product's id, name and effective price, and as picture the first image's url exactly when the product has images |
| Catalog.InquiryMessage | pages/productos.tsx:216-218 | the per-product inquiry text; InquiryQuotesCartPrice states what it quotes |
| Catalog.InquiryQuotesCartPrice | pages/productos.tsx:216-218 | the inquiry text quotes the same price the cart would charge, and that number reads back from the text |
| Catalog.Matches | pages/productos.tsx:181-188 | the filter predicate: category ('Todas' matches all), search and both price bounds; FilterProducts states that it selects exactly these products |
| Catalog.FilterProducts | pages/productos.tsx:180-189 | the result is an order-preserving subsequence of the listing; a product that matches category, search and price bounds keeps all its copies, and one that does not keeps none |
| Catalog.OpenFilterKeepsAll | pages/productos.tsx:180-189 | with 'Todas', an empty search and no bounds, the filter keeps the whole listing |
| Catalog.NameLeqTotal | pages/productos.tsx:172 | the name order is total |
| Catalog.NameLeqTransitive | pages/productos.tsx:172 | the name order is transitive |
| Catalog.LeqTotal | pages/productos.tsx:165-176 | for every sort key, any two products compare one way or the other |
| Catalog.LeqTransitive | pages/productos.tsx:165-176 | for every sort key, the comparator's order is transitive |
| Catalog.Insert | pages/productos.tsx:165-176 | inserting into a sorted list keeps it sorted and adds exactly that product |
| Catalog.SortProducts | pages/productos.tsx:164-177 | the sort returns a permutation of its input, ordered by the selected key |
| Catalog.InsertTies | pages/productos.tsx:165-176 | insertion places a product first among the products it ties with, which is why the sort keeps tied products in input order |
| Catalog.SortIsStable | pages/productos.tsx:164-177 | products that compare equal keep their input order |
| Catalog.PriceAscendingExample | pages/productos.tsx:167-168 | candles at 100 and 50 sorted by ascending price come out cheaper first |
| Catalog.TotalPages | pages/productos.tsx:193 | the page count is ⌈n / 12⌉: the smallest count whose pages hold n products |
| Catalog.PageOf | pages/productos.tsx:194 | the page slice, for any page number, holds at most 12 products, all from the list |
| Catalog.NegativePageCountsFromEnd | pages/productos.tsx:158-159 | a page below 1 counts from the end like `slice`: with 24 products page 0 is empty and page −1 shows the first 12 |
| Catalog.PageBounds | pages/productos.tsx:194 | page p ≥ 1 holds the products from (p − 1)·12 to p·12, cut at the end of the list, so at most 12 |
| Catalog.PageEmptyIff | pages/productos.tsx:193-194 | a page from 0 on is non-empty exactly when it lies between 1 and the page count (negative pages count from the end, see NegativePageCountsFromEnd) |
| Catalog.ThirteenItems | pages/productos.tsx:193-194 | 13 products make 2 pages, and page 2 holds exactly the 13th |
| Catalog.PagesCoverList | pages/productos.tsx:193-194 | the pages laid end to end give back the whole list |
| Catalog.PrevPage | pages/productos.tsx:482 | ← steps back by one from any page after 1 and lands on page 1 from page 1 or below |
| Catalog.NextPage | pages/productos.tsx:500 | → steps forward by one from any earlier page and stays on the page count from the last page or beyond |
| Catalog.PageButtonsStayInRange | pages/productos.tsx:482-501 | both buttons keep an in-range page in range; → brings a page left past the end back to the last page |
| Catalog.View | pages/productos.tsx:180-194 | what the grid shows: the filter, then the sort, then the page slice; ViewShowsOnlyMatches, StalePageShowsNothing and NoMatchShowsNothing state what it shows |
| Catalog.ViewShowsOnlyMatches | pages/productos.tsx:180-194 | for any page number, every product on screen is listed and matches the filter, and a page shows at most 12 |
| Catalog.StalePageShowsNothing | pages/productos.tsx:180-194 | a page number beyond the filtered page count shows an empty page |
| ProductsPage.ProductsPage.constructor | pages/productos.tsx:66-74 | initial state: no products, loading, 'Todas', empty search, no bounds, sorted by name, page 1 |
| ProductsPage.ProductsPage.FetchProducts | pages/productos.tsx:78-112 | failure sets the list to empty; success commits the normalised list; `changed` holds exactly when the list changed; loading ends |
| ProductsPage.ProductsPage.PreviousPage | pages/productos.tsx:482 | the page becomes `max(1, page − 1)` |
| ProductsPage.ProductsPage.FollowingPage | pages/productos.tsx:500 | the page becomes `min(totalPages, page + 1)` for the current results |
| ProductsPage.ProductsPage.GoToPage | pages/productos.tsx:487-493 | a numbered button selects its page, and every numbered page shows products |
| ProductsPage.ProductsPage.SetSearchTerm | pages/productos.tsx:269 | the search box sets the term and leaves the page number as it is |
| ProductsPage.ProductsPage.SetCategory | pages/productos.tsx:282 | the selector sets the category |
| ProductsPage.ProductsPage.SetSortBy | pages/productos.tsx:301 | the selector sets the sort key |
| ProductsPage.ProductsPage.FollowCategoryLink | pages/productos.tsx:127-136 | `categoria` is taken only when it is non-empty and one of the page's categories; otherwise the category is kept |
| ProductsPage.ProductsPage.SyncFromQuery | pages/productos.tsx:139-161 | each present query parameter overwrites its cell and absent ones leave it; `category` is taken unchecked |
| ProductsPage.ThirteenProductsTwoPages | pages/productos.tsx:193-194 | 13 products under an open filter make 2 pages, the second showing 1 product |
| ProductsPage.FilterNothingMatches | pages/productos.tsx:180-189 | a search that no name matches filters everything out |
| ProductsPage.NoMatchShowsNothing | pages/productos.tsx:180-194 | such a search shows an empty page whatever the page number |
| CartModal.OrderLine | components/CartModal.tsx:120 | `- name xqty ($amount)`; LineShowsItsAmount states that its amount reads back as price × quantity |
| CartModal.OrderLines | components/CartModal.tsx:119-121 | one `- name xqty ($amount)` line per cart line, in cart order |
| CartModal.ShippingNote | components/CartModal.tsx:123-127 | the closing line: the postal code note, with `undefined` when no code was passed, or `Retiro en local`; OrderMessage states that it ends the message |
| CartModal.OrderMessage | components/CartModal.tsx:123-127 | the message opens with the greeting followed by the item lines joined by newlines, contains `Total: $<total>`, and ends with the postal code note or `Retiro en local` |
| CartModal.LineShowsItsAmount | components/CartModal.tsx:120 | every order line reads back as its price × quantity, whatever the product's name |
| CartModal.LinesAddUp | components/CartModal.tsx:119-121 | the amounts on the order lines add up to Σ price × quantity |
| CartModal.ItemBlockReadsBack | components/CartModal.tsx:119-123 | for a non-empty cart whose product names hold no line break, splitting the item block at newlines gives back the lines; for a consistent cart their amounts add up to the total in the message |
| CartModal.ShippingDialog.constructor | components/CartModal.tsx:13-15 | the dialog opens with no choice, an empty postal code and no error |
| CartModal.ShippingDialog.ChooseShipping | components/CartModal.tsx:43-53 | the two buttons record the shipping choice |
| CartModal.ShippingDialog.TypeZipCode | components/CartModal.tsx:67-75 | typing `3432` shows the error and any other value clears it |
| CartModal.ShippingDialog.ConfirmDisabled | components/CartModal.tsx:100 | Confirm's `disabled` condition; Confirm states that the dialog acts exactly when it does not hold |
| CartModal.ShippingDialog.Confirm | components/CartModal.tsx:94-100 | Confirm acts exactly when it is enabled; the postal code goes out exactly when shipping is chosen, and it is then neither empty nor `3432` |
| CartModal.Checkout | components/CartModal.tsx:116-127 | a confirmed dialog yields the order message for its choice: it ends with the typed postal code when shipping, with `Retiro en local` otherwise |
| CartModal.DecrementCommand | components/CartModal.tsx:213 | − requests `max(0, qty − 1)`: qty − 1 for a quantity of at least 1 and 0 otherwise, for the line's id |
| CartModal.IncrementCommand | components/CartModal.tsx:227 | + requests `qty + 1` |
| CartModal.DecrementFromOneRemoves | components/CartModal.tsx:212-216 | − on a line of quantity 1 removes the line, exactly like `removeItem` |
| CartModal.DecrementLowersOneUnit | components/CartModal.tsx:212-216 | − on quantity 2 or more lowers only that line by one unit and the total by its price |
| CartModal.IncrementRaisesOneUnit | components/CartModal.tsx:226-230 | + raises only that line by one unit and the total by its price |
| CartModal.ButtonsKeepCartSound | components/CartModal.tsx:212-230 | either button keeps the cart consistent and every quantity at least 1 |

Two scenario methods drive the classes through a session. They have no
contract of their own, and their assertions are checked along the way.

- `CartContext.Session` (context/CartContext.tsx:108-164): the provider
  hydrates from a stored empty cart, adds one product twice and removes it.
  Storage ends holding the empty cart's snapshot.
- `ProductsPage.NarrowingSearchLeavesPage` (pages/productos.tsx:104-194,
  482-500): 13 products arrive and → leads to page 2, which shows the 13th.
  A search that nothing matches then leaves the page at 2, showing nothing.

## Left out

- Browser storage is a parsed value (`Storage`, `StoredValue`). JSON text, `JSON.parse` and `JSON.stringify` are not modelled. A stored `total` of `null`, or `items` that are not an array, are not modelled either.
- `JSON.stringify(a) !== JSON.stringify(b)` in `fetchProducts` is modelled as structural inequality of the normalised lists.
- Network requests (`fetch`) are a `Response` parameter. The 5-second polling interval and the effects that start it are not modelled.
- Toasts, `window.open`, `encodeURIComponent` and the `wa.me` URL are output only, so the model stops at the message text.
- Prices and quantities are integers, such as centavos. Floating-point rounding of JavaScript numbers is not modelled.
- `toLocaleString` formatting of prices on screen is not modelled.
- Catalog.Normalize: covers case folding of ASCII and Latin-1 capitals and the canonical decompositions of Latin-1 letters. Of the Diacritic property it covers the Latin-1 spacing accents, U+02B0–U+02FF and most of U+0300–U+0362. Other letters and marks pass through unchanged, for example Greek and Cyrillic capitals, and the Diacritic marks after U+0362.
- Catalog.NameLeq: `localeCompare` is modelled as lexicographic order on code points (Dafny characters are Unicode scalar values, not UTF-16 code units), a total preorder. The locale's collation is not modelled.
- Query-string values arrive already converted. A price bound is unset, a number or NaN. The page arrives as an integer, so `Number(page)` giving NaN or a fraction is not modelled.
- The `...p` spread in the product normaliser copies any extra fields of the response. The model keeps only the fields the page uses.
- `maxLength={8}` on the postal-code field is enforced by the browser, not by a handler, so it is not modelled.
- `openWhatsApp` (pages/productos.tsx:197-201) is never called.
- The following have no logic beyond rendering and are not modelled:
  - the product detail modal;
  - the grid/list view toggle;
  - the close buttons;
  - the loading skeleton.
- `filtro` in the `categoria` link handler is read but never used.
- CartContext.CartProvider: the provider renders nothing until hydrated, so commands never run before hydration. The model does not require this. It only guarantees that nothing is written to storage before hydration.
- The server (the product API, the database and image hosting, the contact mailer), the admin and login pages, and the header's scroll colouring are not part of this model.

## Findings

| source | as written | input that shows it | evidently intended | confidence | as-written member | corrected member |
|---|---|---|---|---|---|---|
| context/CartContext.tsx:38-49 | ADD_ITEM on an id already in the cart adds `action.payload.price` to the total, but the line it increments keeps its original price | cart `[p1 at 100 × 1]`, total 100; p1 goes on sale and is added at 80: the line becomes 100 × 2 = 200 while the total becomes 180 | the total grows by the price of the line being incremented, so that total == Σ price × quantity holds | not executed | CartReducer.RepricedAddBreaksTotal | CartReducer.ReducePreservesConsistency |
