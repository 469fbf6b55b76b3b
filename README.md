# Swift Wholesale — a verified model of the ordering core

Swift Wholesale is a B2B web shop for shoes. Retailers browse a catalogue,
pick quantities per product, collect them in a cart, and submit the cart as a
Shopify draft order once it reaches a minimum order value of 250 euros. The
back office prints an invoice and an order confirmation for each order. On
these documents the order lines are grouped into one product card per product
title, and each card has a size bar for shoe sizes 36 to 47. A small server
function gathers inventory from the Shopify Admin API, following its page
links.

This project models that core in Dafny and proves what it promises:

| module | file | models |
|---|---|---|
| `Text`, `Seqs`, `KeyOrder`, `Wrappers` | `text.dfy`, `seqs.dfy`, `keyorder.dfy`, `wrappers.dfy` | decimal strings, `padStart`, lower-casing, `includes`, sums and buckets over sequences, and the order in which JavaScript enumerates an object's own keys |
| `Sizes` | `sizes.dfy` | `extractSize`: a variant title becomes a shoe size |
| `Grouping`, `GroupingFacts` | `grouping.dfy`, `grouping_facts.dfy` | `groupOrderItems`: the loop over the items, the record of groups, `Object.values`, and what every card holds |
| `Documents` | `documents.dfy` | the values shown on the invoice and the order confirmation: document number, BTW, totals, due date, card numbering |
| `SizeBar` | `sizebar.dfy` | the header row and the quantity row of the size bar |
| `Cart` | `cart.dfy` | the cart store: a class whose `items` and `isOpen` its actions update |
| `CartPanel` | `cartpanel.dfy` | the minimum-order gate, the shortfall, the ± buttons and placing the order |
| `Dashboard` | `dashboard.dfy` | catalogue search and filtering, the category list, the quantity selectors (a class) and adding the selection to the cart |
| `Inventory` | `inventory.dfy` | the inventory function: the request, the paginated crawl, the `link` header, and the `gid` map |

Modelling choices:

- **Money.** Catalogue and cart prices and order totals are integer cents, so
  the minimum order is `25000`. The document figures (subtotal, BTW, total
  including BTW) are exact reals. BTW is `subtotal * 21 / 100`.
- **Dates.** The creation date is reduced to its year and a day number. The
  due date is that day number plus 14.
- **JavaScript records.** Object keys are enumerated in JavaScript's order:
  array-index keys ascending first, then the others in insertion order. This
  is `KeyOrder.JsKeyOrder`. The model uses it wherever the code enumerates a
  record: `Object.values(groups)` and `Object.entries(quantities)`.
- **Outside inputs.** `fetch` results, the environment token and the outcome
  of `createDraftOrder` are parameters. The crawl consumes a script of fetch
  results, one per request.

Behaviours of the code that are easy to get wrong; the model follows the code:

- **Card order.** Product cards appear in first-appearance order only when no
  product title is an array index such as `"2024"`. `Object.values` puts
  such titles first, in ascending order. See
  `GroupingFacts.GroupedFirstAppearance` and
  `GroupingFacts.NumericTitleFirstExample`.
- **Cart keys.** The cart is keyed by product id, not by variant.
- **Quantities.** `addItem` does not check that the quantity is positive.
- **Empty cart.** An empty cart cannot be ordered only because its total, 0,
  is below the minimum. It shows no shortfall warning, because the footer that
  holds the warning is drawn only while the cart has lines.

## Model

| member | source | states |
|---|---|---|
| Text.NatToStringValue | src/components/documents/Invoice.tsx:18 | the decimal form of a number is all digits and reads back as that number |
| Text.NatToStringInjective | src/components/documents/Invoice.tsx:18 | different numbers have different decimal forms |
| Text.PadStart | src/components/documents/Invoice.tsx:18 | `padStart(n, c)` yields at least `n` characters: fill characters, then the original string |
| Text.LeadingZerosValue | src/components/documents/Invoice.tsx:18 | leading zeros do not change the value of a digit string |
| Text.ToLower | src/pages/DashboardPage.tsx:32-33 | lower-casing keeps the length and maps each character |
| Text.ContainsEmpty | src/pages/DashboardPage.tsx:32-33 | every string includes the empty string, so an empty search matches all |
| Text.IndexOf | supabase/functions/shopify-inventory/index.ts:59 | the first position of a character, or none when it does not occur |
| Seqs.DedupFirstOccurrenceOrder | src/pages/DashboardPage.tsx:24 | `Array.from(new Set(xs))` holds each value once, in first-occurrence order |
| KeyOrder.JsKeyOrderPermutes | src/components/documents/utils.ts:65 | the enumeration order is a permutation of the insertion order |
| KeyOrder.JsKeyOrderShape | src/components/documents/utils.ts:65 | array-index keys come first, in ascending order, then the other keys in insertion order |
| KeyOrder.JsKeyOrderNoIndexKeys | src/components/documents/utils.ts:65 | without array-index keys, the enumeration order is the insertion order |
| KeyOrder.JsKeyOrderDistinct | src/pages/DashboardPage.tsx:51 | enumeration lists each distinct key once |
| KeyOrder.JsKeyOrderSum | src/components/documents/Invoice.tsx:14 | a sum over the records in enumeration order equals the sum in insertion order |
| Sizes.FindSizeToken | src/components/documents/utils.ts:75 | finds the leftmost two-digit 35–50 token bounded by non-word characters, or reports that there is none |
| Sizes.ExtractSize | src/components/documents/utils.ts:72-77 | no size exactly for a null, empty or "Default Title" variant title; any size found is non-empty |
| Sizes.ExtractSizeLeftmost | src/components/documents/utils.ts:75-76 | the leftmost size token is returned; with no token, the title comes back verbatim |
| Sizes.SizeTokenRange | src/components/documents/utils.ts:75 | the token alternation accepts exactly the two-digit numbers 35 to 50 |
| Sizes.ExtractedSizeShape | src/components/documents/utils.ts:75-76 | an extracted size is the whole title, or two digits worth 35 to 50 |
| Sizes.ExtractSizeTokenExamples | src/components/documents/utils.ts:70 | "42", "42 / Black", "Size: 42" and "Size 42 / Black" give "42" |
| Sizes.ExtractSizeVerbatimExamples | src/components/documents/utils.ts:76 | "One Size", "EU43" (no word boundary) and "420" (too long) come back verbatim |
| Sizes.ExtractSizeNoSizeExamples | src/components/documents/utils.ts:73 | "Default Title", "" and null give no size |
| Grouping.GroupOrderItems | src/components/documents/utils.ts:36-66 | the method's cards are exactly the reference grouping `Grouped(items)` |
| Grouping.FoldItem | src/components/documents/utils.ts:40-62 | one item joins its title's group (a new group at its first occurrence) and a new title is appended to the key list |
| Grouping.FoldItems | src/components/documents/utils.ts:39-63 | after the loop, the record holds each title's group over all items, and the key list follows first insertion |
| Grouping.GroupStep | src/components/documents/utils.ts:42-62 | one loop step (create a group if missing, then add the item) keeps the loop invariant |
| Grouping.ValuesAreGroups | src/components/documents/utils.ts:65 | `Object.values` of the folded record is the reference grouping |
| Grouping.GroupForSnoc | src/components/documents/utils.ts:42-62 | appending an item changes only the card of its own title, which is created if new and then updated |
| Grouping.TitlesSnoc | src/components/documents/utils.ts:42-52 | a title enters the key list when it is first seen, and only then |
| Grouping.FirstWithTitles | src/components/documents/utils.ts:42 | a group exists for a title iff some item carries that title |
| GroupingFacts.CardTitles | src/components/documents/utils.ts:65 | the cards' titles are the titles in enumeration order |
| GroupingFacts.GroupedTitles | src/components/documents/utils.ts:36-66 | one card per distinct title, no two cards share a title, every item's title has a card |
| GroupingFacts.GroupedFirstAppearance | src/components/documents/utils.ts:65 | when no title is an array index, the cards follow the titles' first appearance |
| GroupingFacts.NumericTitleFirstExample | src/components/documents/utils.ts:65 | the title "2024" is listed before an earlier "Runner X" |
| GroupingFacts.FirstWithIsFirst | src/components/documents/utils.ts:42-52 | a card is seeded from the first item with its title |
| GroupingFacts.GroupedCard | src/components/documents/utils.ts:42-62 | a card's image, sku and unit price come from its title's first item; its pieces, euros and size counts are sums over the items with that title |
| GroupingFacts.GroupedPieces | src/components/documents/Invoice.tsx:14 | the cards' pieces add up to the pieces of all items |
| GroupingFacts.GroupedValue | src/components/documents/utils.ts:56 | the cards' euro totals add up to the line totals of all items |
| GroupingFacts.SizeTallyBuckets | src/components/documents/utils.ts:59-62 | each size count is the sum of the quantities of the items with that size; the keys are the sizes present |
| GroupingFacts.SizeTallySnoc | src/components/documents/utils.ts:61 | an item with a size adds its quantity to that size's count |
| GroupingFacts.SizesAddUp | src/components/documents/utils.ts:59-62 | with non-negative quantities, the size counts add up to at most the pieces; to exactly the pieces when every item has a size |
| GroupingFacts.CardSizesWithinPieces | src/components/documents/utils.ts:55-62 | a card's size counts add up to at most its pieces |
| GroupingFacts.ItemsWithAreFrom | src/components/documents/utils.ts:40 | a card only gathers items with its own title |
| GroupingFacts.RunnerExample | src/components/documents/utils.ts:36-66 | two lines of "Runner X", sizes 41 and 42, make one card of 5 pieces and sizes {41: 2, 42: 3} |
| Documents.Btw | src/components/documents/Invoice.tsx:16 | BTW is 21% of the subtotal, and lies between 0 and the subtotal for a non-negative subtotal |
| Documents.TotalIncl | src/components/documents/Invoice.tsx:17 | the total including BTW is 121% of the subtotal; the difference is the BTW |
| Documents.IntToString | src/components/documents/Invoice.tsx:18 | `String(n)`: for n ≥ 0 a digit string that reads back as n; for n < 0 a minus sign followed by a digit string that reads back as −n |
| Documents.PaddedNumber | src/components/documents/Invoice.tsx:18 | the padded order number is at least three digits long, ends with the number's own digits and reads back as the number |
| Documents.DocumentNumberRoundTrip | src/components/documents/Invoice.tsx:18 | the year and order number can be read back from the document number |
| Documents.DocumentNumberInjective | src/components/documents/Invoice.tsx:18 | different (year, order number) pairs give different document numbers |
| Documents.DocumentNumberExamples | src/components/documents/Invoice.tsx:18 | order 7 of 2025 is "F2025-007"; order 1234 is "F2025-1234" |
| Documents.NumberCards | src/components/documents/Invoice.tsx:59-61 | cards are numbered 1, 2, … in order |
| Documents.DueDay | src/components/documents/utils.ts:104-107 | the due date is 14 days after the order date |
| Documents.Invoice | src/components/documents/Invoice.tsx:13-19 | the invoice's number, payment reference and footer reference coincide; it shows the total pairs of all items, the subtotal, BTW at 21%, the amount due (equal to the total including BTW), the due date 14 days out, and the numbered cards |
| Documents.Confirmation | src/components/documents/OrderConfirmation.tsx:13-18 | the confirmation shows the same kind of number, total pairs, subtotal, BTW, total and numbered cards |
| Documents.DocumentsAgree | src/components/documents/OrderConfirmation.tsx:38 | the invoice and the confirmation of an order agree on number, pairs, money figures and cards |
| SizeBar.QtyCell | src/components/documents/SizeBar.tsx:22-30 | a column shows the stored quantity when it is non-zero, otherwise the placeholder |
| SizeBar.HeaderRow | src/components/documents/SizeBar.tsx:1 | the header lists the twelve sizes 36 to 47 in order |
| SizeBar.QtyRow | src/components/documents/SizeBar.tsx:21-33 | one cell per header column, in column order |
| SizeBar.QtyRowAt | src/components/documents/SizeBar.tsx:21-33 | the column of size 36–47 shows the placeholder exactly when that size's count is missing or zero |
| SizeBar.QtyRowOnlyReadsColumns | src/components/documents/SizeBar.tsx:22 | size maps that agree on the twelve column keys give the same row |
| SizeBar.NonColumnKeyHidden | src/components/documents/SizeBar.tsx:22 | a size outside 36–47, or a verbatim title, never shows in the bar |
| SizeBar.EmptyBar | src/components/documents/SizeBar.tsx:30 | an empty size map shows twelve placeholders |
| Cart.FindIndex | src/stores/cartStore.ts:28 | the first line with the product id, or none when no line has it |
| Cart.Added | src/stores/cartStore.ts:26-40 | a new product is appended as a line; a known one keeps the id list unchanged |
| Cart.Bumped | src/stores/cartStore.ts:31-35 | the lines with the id get the extra quantity; the others are unchanged |
| Cart.WithQuantity | src/stores/cartStore.ts:53-57 | the lines with the id take the new quantity; products and ids are unchanged |
| Cart.Removed | src/stores/cartStore.ts:42-46 | no line with the id is left, and every other line is kept |
| Cart.CartStore.constructor | src/stores/cartStore.ts:22-24 | a new store has no items and a closed panel |
| Cart.CartStore.AddItem | src/stores/cartStore.ts:26-40 | items become `Added(old items, …)`; the panel is untouched; unique ids are kept |
| Cart.CartStore.RemoveItem | src/stores/cartStore.ts:42-46 | items become `Removed(old items, id)`; the panel is untouched; unique ids are kept |
| Cart.CartStore.UpdateQuantity | src/stores/cartStore.ts:48-58 | a quantity ≤ 0 removes the line, any other sets it; unique ids are kept |
| Cart.CartStore.ClearCart | src/stores/cartStore.ts:60 | the cart is empty and the panel state is kept |
| Cart.CartStore.ToggleCart | src/stores/cartStore.ts:61 | the panel flips; the items are kept |
| Cart.CartStore.SetCartOpen | src/stores/cartStore.ts:62 | the panel takes the given state; the items are kept |
| Cart.CartStore.TotalPrice | src/stores/cartStore.ts:64-68 | the total price is non-negative for non-negative prices and quantities |
| Cart.CartStore.TotalItems | src/stores/cartStore.ts:70-71 | the piece count is non-negative for non-negative quantities |
| Cart.AddedKeepsIdsUnique | src/stores/cartStore.ts:26-40 | adding keeps one line per product |
| Cart.RemovedKeepsIdsUnique | src/stores/cartStore.ts:42-46 | removing keeps one line per product |
| Cart.WithQuantityKeepsIdsUnique | src/stores/cartStore.ts:53-57 | setting a quantity keeps one line per product |
| Cart.AddedExisting | src/stores/cartStore.ts:29-36 | adding a product already in the cart raises that line's quantity in place |
| Cart.RemovedAt | src/stores/cartStore.ts:44 | removing the product of line k leaves the lines before and after k, in order |
| Cart.WithQuantityAt | src/stores/cartStore.ts:54-56 | setting a quantity changes exactly the one line of that product |
| Cart.TotalsAreSums | src/stores/cartStore.ts:64-71 | the totals are the sums of the line amounts and of the quantities |
| Cart.AddedTotals | src/stores/cartStore.ts:26-40 | adding q pieces raises the piece count by q and the price by q times the unit price of the line |
| Cart.RemovedTotals | src/stores/cartStore.ts:42-46 | removing a line lowers the totals by that line's pieces and amount |
| Cart.WithQuantityTotals | src/stores/cartStore.ts:53-57 | setting a quantity changes the totals by the change in pieces and the unit price times that change |
| CartPanel.Shortfall | src/components/CartPanel.tsx:122-133 | a shortfall is shown exactly when the cart has lines (the footer guard) and the minimum is not met; it is positive and makes up the difference to 250 euros |
| CartPanel.ShortfallExamples | src/components/CartPanel.tsx:13 | 250 and 260 euros meet the minimum; 249.99 is 0.01 short and 100 is 150 short; the empty cart shows no shortfall |
| CartPanel.CartGateExample | src/components/CartPanel.tsx:12-16 | 1 × 100 + 2 × 80 euros is 260 euros and may be ordered; without the second line it is 150 short |
| CartPanel.LineItems | src/components/CartPanel.tsx:18-21 | one draft-order line per cart line, with its product id and quantity |
| CartPanel.LineItemsQuantity | src/components/CartPanel.tsx:18-21 | the draft order asks for exactly the cart's pieces |
| CartPanel.LineItemsDistinct | src/components/CartPanel.tsx:18-21 | a cart with one line per product gives a draft order with one line per product |
| CartPanel.PlaceOrder | src/components/CartPanel.tsx:15-38 | below the minimum nothing is submitted and nothing changes; otherwise the cart's lines are submitted, and success empties the cart and closes the panel while failure leaves both as they were |
| CartPanel.Minus | src/components/CartPanel.tsx:91 | the minus button removes the line at quantity 1 or less, otherwise lowers it by one |
| CartPanel.Plus | src/components/CartPanel.tsx:100 | the plus button raises the quantity by one |
| CartPanel.MinusLastPiece | src/components/CartPanel.tsx:91 | minus on a single piece takes one piece and its price off the totals |
| CartPanel.MinusOnePiece | src/components/CartPanel.tsx:91 | minus on a line above one piece takes one piece and its price off the totals |
| CartPanel.PlusTotals | src/components/CartPanel.tsx:100 | plus adds one piece and one unit price to the totals |
| CartPanel.LineAmountsMakeTotal | src/components/CartPanel.tsx:107 | each line shows unit price × quantity, and the cart total adds those amounts |
| Dashboard.Filtered | src/pages/DashboardPage.tsx:28-38 | the filtered list holds only products matching both search and category, and every matching product |
| Dashboard.FilteredConcat | src/pages/DashboardPage.tsx:28-38 | filtering a concatenation is concatenating the filters, so the catalogue order and duplicates are kept |
| Dashboard.FilteredSingle | src/pages/DashboardPage.tsx:30-36 | a single product is kept exactly when it matches search and category |
| Dashboard.ShowAll | src/pages/DashboardPage.tsx:28-38 | an empty search with category "all" shows the whole catalogue |
| Dashboard.FilteredIdempotent | src/pages/DashboardPage.tsx:28-38 | filtering twice is filtering once |
| Dashboard.AllShownKept | src/pages/DashboardPage.tsx:30-36 | when every product matches, the list is the catalogue unchanged |
| Dashboard.Categories | src/pages/DashboardPage.tsx:23-26 | "all" first, then each category of the catalogue exactly once |
| Dashboard.CategoriesInFirstOccurrenceOrder | src/pages/DashboardPage.tsx:24 | the categories follow their first occurrence in the catalogue |
| Dashboard.CategoriesDistinct | src/pages/DashboardPage.tsx:24 | with no category named "all", the whole list has no duplicates |
| Dashboard.Clamp0 | src/pages/DashboardPage.tsx:43 | `Math.max(0, n)`: the result is non-negative, at least n, and either 0 or n |
| Dashboard.Selected | src/pages/DashboardPage.tsx:51 | the selection lists only ids with a positive quantity, with that quantity, and all of them |
| Dashboard.SelectedDistinct | src/pages/DashboardPage.tsx:51 | each id is selected at most once |
| Dashboard.FindProduct | src/pages/DashboardPage.tsx:56 | the first catalogue product with the id, or none when none has it |
| Dashboard.Matched | src/pages/DashboardPage.tsx:54-61 | the count of added products is at most the number of selected ids |
| Dashboard.AddAllKeepsIdsUnique | src/pages/DashboardPage.tsx:55-61 | adding the selection keeps one cart line per product |
| Dashboard.AddAllTotals | src/pages/DashboardPage.tsx:55-61 | the cart's piece count grows by the selected quantities of the products found |
| Dashboard.AddAllContains | src/pages/DashboardPage.tsx:55-61 | after adding, the cart holds its old products and every selected product that was found |
| Dashboard.CatalogueState.constructor | src/pages/DashboardPage.tsx:12-15 | a new page has the given products and no quantities |
| Dashboard.CatalogueState.Qty | src/pages/DashboardPage.tsx:177 | a selector shows a non-negative quantity, 0 when none was set |
| Dashboard.CatalogueState.UpdateQty | src/pages/DashboardPage.tsx:40-45 | the id's quantity becomes max(0, old or 0 + delta); a new id is appended to the keys; others unchanged |
| Dashboard.CatalogueState.SetQty | src/pages/DashboardPage.tsx:47-49 | the id's quantity becomes max(0, parsed input or 0) |
| Dashboard.CatalogueState.Store | src/pages/DashboardPage.tsx:41-48 | the record is spread and one property is set; a new key is appended |
| Dashboard.CatalogueState.SelectedExactly | src/pages/DashboardPage.tsx:51 | (id, q) is selected iff the id's quantity is q and positive |
| Dashboard.CatalogueState.SelectedIdsDistinct | src/pages/DashboardPage.tsx:51 | no id appears twice in the selection |
| Dashboard.AddSelected | src/pages/DashboardPage.tsx:55-61 | the forEach loop adds each selected entry with a catalogue product to the cart, in order, and counts exactly those |
| Dashboard.CatalogueState.HandleAddToCart | src/pages/DashboardPage.tsx:53-67 | the cart becomes the old cart with each found selected product added, in selection order; the count is the products found; the quantities are cleared |
| Dashboard.SelectorExamples | src/pages/DashboardPage.tsx:40-49 | minus at 0 stays 0; empty, negative and positive inputs give 0, 0 and the number |
| Inventory.Gid | supabase/functions/shopify-inventory/index.ts:51 | a variant's key starts with `gid://shopify/ProductVariant/` |
| Inventory.GidInjective | supabase/functions/shopify-inventory/index.ts:51 | different variant ids give different keys |
| Inventory.QuantityExamples | supabase/functions/shopify-inventory/index.ts:52 | a missing quantity counts as 0; 0 and negative quantities are kept |
| Inventory.AddVariantsStores | supabase/functions/shopify-inventory/index.ts:49-54 | every variant seen gets a key in the inventory |
| Inventory.AddVariantsElsewhere | supabase/functions/shopify-inventory/index.ts:49-54 | keys of no variant seen are left as they were |
| Inventory.AddVariantsConcat | supabase/functions/shopify-inventory/index.ts:30-65 | storing two batches one after the other is storing them together |
| Inventory.AddVariantsLastWins | supabase/functions/shopify-inventory/index.ts:52 | a variant's key holds the quantity of its last occurrence |
| Inventory.AddProductsFlat | supabase/functions/shopify-inventory/index.ts:49-50 | the nested loops store the variants of all products, in order |
| Inventory.StoreProducts | supabase/functions/shopify-inventory/index.ts:49-54 | the loops' map is the inventory with the page's variants stored |
| Inventory.LeadingSpaces | supabase/functions/shopify-inventory/index.ts:59 | `\s*` takes the longest run of whitespace |
| Inventory.LinkTarget | supabase/functions/shopify-inventory/index.ts:59 | a matched URL is non-empty, holds no '>', and comes from a header that contains rel="next" |
| Inventory.NextPageIsLinkTarget | supabase/functions/shopify-inventory/index.ts:57-64 | the `includes` guard does not change the result: the next page is the regex match, or none |
| Inventory.FirstMatchSkip | supabase/functions/shopify-inventory/index.ts:59 | the regex search skips positions without '<' |
| Inventory.NextEntryMatches | supabase/functions/shopify-inventory/index.ts:59-60 | an entry `<u>; rel="next"` matches where it starts, capturing `u` |
| Inventory.PreviousEntryFails | supabase/functions/shopify-inventory/index.ts:59 | an entry `<u>; rel="previous"` does not match |
| Inventory.LinkTargetFirstNext | supabase/functions/shopify-inventory/index.ts:59-60 | when the first '<' opens a next entry, its URL is the next page |
| Inventory.LinkTargetAfterPrevious | supabase/functions/shopify-inventory/index.ts:59-60 | a previous entry followed by a next entry: the next entry's URL is taken, not the first URL |
| Inventory.LinkTargetOnlyPreviousEntry | supabase/functions/shopify-inventory/index.ts:58-63 | a header whose only '<' opens a previous entry has no next page |
| Inventory.LinkTargetOnlyNext | supabase/functions/shopify-inventory/index.ts:59-60 | `<u>; rel="next"` gives `u` |
| Inventory.LinkTargetSkipsPrevious | supabase/functions/shopify-inventory/index.ts:59-60 | with a previous and a next link, the next one is followed |
| Inventory.LinkTargetOnlyPrevious | supabase/functions/shopify-inventory/index.ts:58-63 | a header with only a previous link ends the crawl |
| Inventory.PageError | supabase/functions/shopify-inventory/index.ts:39-47 | a page fails exactly when the fetch rejects, the status is outside 200–299, or the JSON does not parse; a bad status is passed on |
| Inventory.Crawl | supabase/functions/shopify-inventory/index.ts:30-65 | at most one request per scripted answer, and the first goes to the start URL |
| Inventory.CrawlFollowsLinks | supabase/functions/shopify-inventory/index.ts:56-64 | each request after the first goes to the next link of an earlier, successful page |
| Inventory.CrawlSuccess | supabase/functions/shopify-inventory/index.ts:30-69 | on success every page fetched was OK, the last has no next link, and the inventory is the variants of all pages stored in order |
| Inventory.CrawlFailure | supabase/functions/shopify-inventory/index.ts:39-45 | a failure is the error of the last page fetched |
| Inventory.SuccessCoversEveryVariant | supabase/functions/shopify-inventory/index.ts:49-54 | every variant on a fetched page has a key in the answer |
| Inventory.SuccessLastWriteWins | supabase/functions/shopify-inventory/index.ts:52 | a variant's key holds the quantity on its last page |
| Inventory.ResumeNext | supabase/functions/shopify-inventory/index.ts:57-64 | one loop iteration either ends with success or moves on to the next link, carrying the inventory |
| Inventory.HandleRequest | supabase/functions/shopify-inventory/index.ts:11-77 | the handler's loop answers as the reference crawl; OPTIONS gets the preflight; a missing or empty token gets a 500 error; the first request goes to the products URL |

## Left out

- Floating point: prices are integer cents and document figures are exact
  reals. `toFixed(2)` rounding and `parseFloat(String(total_price))` are not
  modelled.
- Dates: `new Date(...)`, locale formatting (`formatDate`, `formatDateEn`),
  time zones and month rollover are not modelled. A date is a year and a
  day number.
- Object keys such as `"__proto__"` or ones inherited from
  `Object.prototype`: records are modelled as plain maps.
- `Text.ToLower` maps ASCII letters only; JavaScript's `toLowerCase` also
  folds other scripts.
- Concurrency: React's batched state updates, the `await` inside
  `handlePlaceOrder`, and closures that read stale state are not modelled.
  Each handler runs as one atomic step on the current state.
- `fetchProducts`, `createDraftOrder`, the toast messages, CORS headers,
  `Deno.env` and `JSON.stringify` of the answers are outside the model. The
  fetch results, the token and the draft-order outcome are inputs.
- Inventory.HandleRequest: if `res.text()` throws, or the parsed body is not
  an object, the code falls to its catch-all 500 answer. The model assumes
  an answer's text and JSON are available, and treats a JSON parse error as
  that 500 answer.
- Inventory.Crawl: the code follows next links without bound. The model
  consumes a finite script of fetch results, and `ScriptExhausted` marks a
  crawl that would go on past it.
- Inventory.Gid: variant ids are unbounded naturals. Ids above 2^53 would
  lose precision as JavaScript numbers.
- SizeBar: the placeholder glyph, the cells' styling and the rest of the
  markup are presentational and left out.
- Documents: customer name and contact display, the bank details and the
  fixed texts are presentational.
- Cart.Removed: its own contract states membership, not order. The order of
  the remaining lines is stated by `Cart.RemovedAt` for carts with one line
  per product.
- Dashboard rendering, the floating action bar and the cart badge are
  presentational.
