# Storefront client state, modelled in Dafny

This project models the client-side commerce state of a Next.js storefront.
It covers five parts of the store's code:

- **The cart store** (`store/hooks/use-cart.ts`). Lines are keyed by an id
  built from the product id and the resolved colour and size. Adding an item
  either adds one to its line or appends a new line. Removing an item either
  takes one off its line or deletes the line. "Remove all" empties the cart.
  A migration clears carts saved under an older schema.
- **The cart badge** (`store/components/navbar-actions.tsx`). It shows the
  sum of the line counts.
- **The product page's variant picker** (`store/components/info.tsx`). Sizes
  are shown in clothing-size order (XXS to XXXL, then all other sizes by the
  locale compare). It has a default colour and size, size and colour buttons,
  and an add-to-cart button.
- **The product fetch** (`store/actions/get-products.tsx`). The response body
  is normalised to a product list, and every failure becomes the empty list.
  In the browser, each call aborts the controller of the call before it.
- **The header search box** (`store/components/search/global-search.tsx`).
  It holds the query, a 250 ms debounced search, the first five results in a
  popover, the popover's open/close rules, and navigation on submit or on
  picking a result.

The files are:

- `catalog.dfy`: the product and variant values.
- `js_text.dfy`: the JavaScript string built-ins the code relies on.
  `trim` uses the full ECMAScript whitespace set. `toUpperCase` covers ASCII
  letters only. `encodeURIComponent` is written out as UTF-8 bytes with
  percent escapes.
- `use_cart.dfy`, `navbar_actions.dfy`, `info.dfy`, `get_products.dfy` and
  `global_search.dfy`: one per source file above.

State that the code changes step by step is written as classes:

- `Cart`: the cart's lines, plus the labels of the notifications raised.
- `VariantPicker`: the selected colour and size.
- `Fetcher` and `Controller`: the module-level abort controller.
- `SearchBox`: the component's React state and its one pending timer.

Each method's contract ties the new state to a pure function. Examples are
`Added`, `Removed`, `SortSizes` and `SubmitUrl`. The lemmas prove what those
functions mean, and each class states the invariant its methods keep:

- `Wellformed` for the cart: ids are distinct, every count is at least one,
  and every id is derived from the line's own product and selection.
- `Valid` for the fetcher: every controller but the newest has been aborted.
- `Valid` for the search box: at most five results are shown, a pending timer
  always belongs to the current trimmed query, and a blank query has no timer
  and no spinner.

## Model

| member | source | states |
|---|---|---|
| CartStore.IdPart | store/hooks/use-cart.ts:23-24 | An absent or empty colour/size id becomes `none`; a non-empty one is kept; a part is never empty |
| CartStore.ItemId | store/hooks/use-cart.ts:23-24 | `createCartItemId`: the id is the product id, then `:`, then the colour and size parts; it begins with the product id and a separator, and its length is the three parts plus two separators (`ParseItemIdRoundTrip` shows it splits back) |
| CartStore.ParseItemIdRoundTrip | store/hooks/use-cart.ts:23-24 | A cart id splits back into product id, colour part and size part when the product id and the colour part contain no `:` |
| CartStore.ItemIdInjective | store/hooks/use-cart.ts:23-24 | Under those conditions, and with no real id equal to `none`, two ids are equal exactly when the product ids are equal and the colour and size selections agree (empty and absent count as the same) |
| CartStore.ItemIdCollisions | store/hooks/use-cart.ts:23-24 | Without those conditions ids collide: a real colour id `none` gets the same id as no colour, and a `:` inside a product id shifts the parts |
| CartStore.Resolve | store/hooks/use-cart.ts:32-33 | A pinned non-empty id wins, otherwise the first listed variant's id; the result is absent exactly when nothing is pinned and there are no variants |
| CartStore.ResolveIdempotent | store/hooks/use-cart.ts:32-33 | Resolving an already resolved selection changes nothing |
| CartStore.LineId | store/hooks/use-cart.ts:32-34 | The id an addition is filed under begins with the product id followed by a separator; `DefaultSelectionSameLine` and `ReAddIncrementsLine` show which selections share it |
| CartStore.DefaultSelectionSameLine | store/hooks/use-cart.ts:32-34 | Pinning the first colour and size gives the same cart id as pinning nothing |
| CartStore.FindIndex | store/hooks/use-cart.ts:35 | -1 exactly when no line has the id; otherwise the first line that has it |
| CartStore.WithoutId | store/hooks/use-cart.ts:75 | No line with the removed id remains, the result is never longer, and a list without that id is returned unchanged |
| CartStore.WithoutIdMembers | store/hooks/use-cart.ts:75 | A line is kept exactly when it was in the list and its id differs from the removed one |
| CartStore.WithoutIdConcat | store/hooks/use-cart.ts:75 | Filtering `a + b` is filtering `a` followed by filtering `b`, so the kept lines keep their order |
| CartStore.NewLine | store/hooks/use-cart.ts:48-54 | The appended line holds the product with count 1 under the addition's id, and is well-formed: its selection is resolved and its id is derived from it |
| CartStore.Added | store/hooks/use-cart.ts:30-58 | After an addition the cart has one line more or the same number, and a line with the addition's id is present |
| CartStore.Removed | store/hooks/use-cart.ts:60-79 | A removal never lengthens the cart, leaves it unchanged for an absent id, and after removing the last item of a line no line with that id remains |
| CartStore.AddExisting | store/hooks/use-cart.ts:37-42 | Adding a variant already in the cart adds one to its line; the length and every other line stay the same |
| CartStore.AddNew | store/hooks/use-cart.ts:43-57 | Adding a new variant appends one line with count 1, the resolved colour and size and their id; the earlier lines stay the same |
| CartStore.RemoveDecrements | store/hooks/use-cart.ts:68-72 | Removing from a line holding more than one item takes one off that line only |
| CartStore.WithoutUniqueId | store/hooks/use-cart.ts:75 | Filtering out an id held by exactly one line drops just that line and keeps the others in order |
| CartStore.RemoveDeletes | store/hooks/use-cart.ts:73-77 | With distinct ids, removing the last item of a line deletes exactly that line, in order |
| CartStore.DropPreservesWellformed | store/hooks/use-cart.ts:75 | Dropping a line keeps a well-formed cart well-formed |
| CartStore.RemoveUnknown | store/hooks/use-cart.ts:62-64 | Removing an id not in the cart changes nothing |
| CartStore.RecountPreservesWellformed | store/hooks/use-cart.ts:40 | Changing one line's count to a positive value keeps the cart well-formed |
| CartStore.AddPreservesWellformed | store/hooks/use-cart.ts:30-58 | `addItem` keeps ids distinct, counts positive and ids tied to the stored selection |
| CartStore.RemovePreservesWellformed | store/hooks/use-cart.ts:60-79 | `removeItem` keeps the cart well-formed |
| CartStore.ReAddIncrementsLine | store/hooks/use-cart.ts:32-42 | The cart page's "+" button re-adds a line's product with its stored selection, which the store resolves back to that very line: it adds one to it and changes nothing else |
| CartStore.Cart.constructor | store/hooks/use-cart.ts:29 | The store starts with no lines |
| CartStore.Cart.AddItem | store/hooks/use-cart.ts:30-59 | The new lines are `Added(old lines, product, selection)`, one "item added" notification is raised, and well-formedness is kept |
| CartStore.Cart.RemoveItem | store/hooks/use-cart.ts:60-79 | The new lines are `Removed(old lines, id)`; an unknown id changes nothing and raises no notification; well-formedness is kept |
| CartStore.Cart.RemoveAll | store/hooks/use-cart.ts:80-83 | The cart becomes empty and one "all removed" notification is raised |
| CartStore.Migrate | store/hooks/use-cart.ts:89-94 | A snapshot older than version 2 loses its lines and keeps everything else; a current one is kept as it is |
| CartStore.MigrateSettles | store/hooks/use-cart.ts:88-94 | A migrated snapshot needs no further migration, and it is well-formed when it was cleared or its lines were |
| BadgeTotal.TotalItems | store/components/navbar-actions.tsx:24 | The badge of an empty cart is 0 |
| BadgeTotal.TotalAtLeastLines | store/components/navbar-actions.tsx:24 | When every line holds at least one item, the badge is at least the number of lines |
| BadgeTotal.TotalAppend | store/components/navbar-actions.tsx:24 | Appending a line adds its count to the badge |
| BadgeTotal.TotalConcat | store/components/navbar-actions.tsx:24 | The total of two joined lists is the sum of their totals |
| BadgeTotal.TotalUpdate | store/components/navbar-actions.tsx:24 | Replacing a line changes the total by the difference of the counts |
| BadgeTotal.TotalWithout | store/components/navbar-actions.tsx:24 | Leaving a line out takes its count off the total |
| BadgeTotal.TotalDropAt | store/components/navbar-actions.tsx:24 | Dropping the line at a position takes its count off the total |
| BadgeTotal.AddItemTotal | store/hooks/use-cart.ts:37-57 | Every `addItem` raises the badge by exactly one, on both branches |
| BadgeTotal.RemoveItemTotal | store/hooks/use-cart.ts:60-79 | In a well-formed cart, `removeItem` of a present id lowers the badge by exactly one, and of an absent id leaves it unchanged |
| BadgeTotal.RemoveOneOfManyTotal | store/hooks/use-cart.ts:68-72 | Taking one item off a line of several lowers the badge by one |
| BadgeTotal.RemoveLastItemTotal | store/hooks/use-cart.ts:73-77 | Deleting a line of one item lowers the badge by one |
| BadgeTotal.AddTwiceRemoveOnce | store/hooks/use-cart.ts:30-79 | Adding a one-colour, one-size product twice gives one line `p1:c1:s1` of two; removing it once leaves one item, and the badge shows 1 |
| SizeOrder.IndexOf | store/components/info.tsx:22-23 | `indexOf`: -1 exactly when absent, otherwise the first position holding the value |
| SizeOrder.Rank | store/components/info.tsx:19-23 | A size's rank is the position of its upper-cased label on the ladder, or -1 when the label is not on it |
| SizeOrder.CompareSizes | store/components/info.tsx:21-28 | The comparator: two ladder sizes put the lower rung first; between a ladder size and another, the ladder size comes first and never ties; two sizes off the ladder compare by the locale compare |
| SizeOrder.RankOfRung | store/components/info.tsx:19 | Each ladder label has its own position as rank |
| SizeOrder.RankIgnoresCase | store/components/info.tsx:22-23 | Labels that agree up to ASCII case get the same rank (`m` and `M` are both rung 3) |
| SizeOrder.LadderSizesByPosition | store/components/info.tsx:24 | Two ladder sizes compare as their ladder positions do |
| SizeOrder.LadderBeforeOthers | store/components/info.tsx:25-26 | A ladder size sorts before any size off the ladder, from either side |
| SizeOrder.OtherSizesByLocale | store/components/info.tsx:27 | Two sizes off the ladder compare by the locale compare |
| SizeOrder.CompareAntisymmetric | store/components/info.tsx:21-28 | The comparator flips sign when its arguments are swapped, given a locale compare that does |
| SizeOrder.CompareTransitive | store/components/info.tsx:21-28 | "Not after" is transitive for the comparator, given a locale compare whose "not after" is transitive |
| SizeOrder.SizeComparatorConsistent | store/components/info.tsx:21-28 | The size comparator meets what `sort` requires of a comparator |
| SizeOrder.Insert | store/components/info.tsx:21 | Insertion keeps exactly the same elements (multiset) |
| SizeOrder.SortBy | store/components/info.tsx:20-21 | Sorting a copy returns a permutation of the sizes (same multiset and length) |
| SizeOrder.PrependSorted | store/components/info.tsx:21 | An element not after any element of a sorted list can be put in front of it |
| SizeOrder.InsertBounded | store/components/info.tsx:21 | A lower bound of the inserted element and of the list bounds the result |
| SizeOrder.InsertSorted | store/components/info.tsx:21 | Inserting into a sorted list keeps it sorted |
| SizeOrder.SortBySorted | store/components/info.tsx:20-21 | The sorted copy is in comparator order |
| SizeOrder.SortPair | store/components/info.tsx:21 | Two elements out of order are swapped |
| SizeOrder.SortSizes | store/components/info.tsx:20-29 | `sortedSizes` is a permutation of the product's sizes |
| SizeOrder.SortedSizesLayout | store/components/info.tsx:20-29 | In `sortedSizes` every ladder size comes before every other size, and the ladder sizes run from the smallest rung up |
| SizeOrder.SortTwoRungs | store/components/info.tsx:24 | A larger rung listed before a smaller one is shown after it, whatever the locale compare |
| SizeOrder.DefaultColorId | store/components/info.tsx:30 | The initial colour is the first colour's id, or the empty string when there are no colours |
| SizeOrder.DefaultSizeId | store/components/info.tsx:31 | The initial size is the first sorted size's id, or the empty string |
| SizeOrder.DefaultSizeIsSmallest | store/components/info.tsx:31 | The default size belongs to the product, and no other size of it sorts before it |
| SizeOrder.VariantPicker.CurrentSelection | store/components/info.tsx:38 | The selection handed to the cart pins exactly the selected colour and size |
| SizeOrder.VariantPicker.constructor | store/components/info.tsx:20-31 | First render: the sizes are the sorted copy, and the defaults are selected |
| SizeOrder.VariantPicker.ShowProduct | store/components/info.tsx:33-36 | A new product re-sorts its sizes and resets both selections to the defaults |
| SizeOrder.VariantPicker.SelectSize | store/components/info.tsx:68 | A size button sets the selected size and nothing else |
| SizeOrder.VariantPicker.SelectColor | store/components/info.tsx:89 | A colour swatch sets the selected colour and nothing else |
| SizeOrder.VariantPicker.AddToCart | store/components/info.tsx:37-39 | The cart's lines become `Added(old lines, product, current selection)`, with one notification, and well-formedness is kept |
| SizeOrder.DefaultColorMatchesQuickAdd | store/components/info.tsx:30 | The page's default colour resolves to the same colour as an addition with no selection |
| SizeOrder.LargeThenSmallSorted | store/components/info.tsx:20-29 | A product listed with sizes L then S shows S first |
| SizeOrder.LargeThenSmallLines | store/hooks/use-cart.ts:23-34 | That product added with size `s` pinned is filed as `p1:none:s`, and added with no selection as `p1:none:l` |
| SizeOrder.DefaultSizeDiffersFromQuickAdd | store/components/info.tsx:31 | The page's untouched default size (first in ladder order) and the product card's quick add (first in catalog order) land on different cart lines |
| JsText.Trim | store/components/search/global-search.tsx:38 | `trim` is empty exactly for all-whitespace input; otherwise it neither starts nor ends with whitespace, and it is never longer |
| JsText.TrimSurrounded | store/components/search/global-search.tsx:38 | `trim` removes exactly the surrounding whitespace: whitespace, then a middle part that neither starts nor ends with whitespace, then whitespace, trims to that middle part |
| JsText.TrimUntrimmed | store/components/search/global-search.tsx:38 | A string without surrounding whitespace trims to itself |
| JsText.TrimIdempotent | store/components/search/global-search.tsx:73 | Trimming twice is trimming once |
| JsText.UpperChar | store/components/info.tsx:22 | Lower-case ASCII letters move to upper case; every other character is kept |
| JsText.ToUpperCase | store/components/info.tsx:22 | `toUpperCase` keeps the length and maps each character on its own |
| JsText.ToUpperCaseIgnoresCase | store/components/info.tsx:22-23 | Strings that agree up to ASCII case upper-case to the same string |
| JsText.UpperCaseFixed | store/components/info.tsx:19-22 | A string without lower-case letters (every ladder label) upper-cases to itself |
| JsText.HexDigit | store/components/search/global-search.tsx:74 | A hexadecimal digit is an upper-case digit or letter, and is unreserved |
| JsText.Utf8 | store/components/search/global-search.tsx:74 | UTF-8 gives 1 to 4 bytes, and exactly one byte (the code itself) for ASCII |
| JsText.PercentEncoded | store/components/search/global-search.tsx:74 | Each byte becomes three characters, starting with `%`, followed by unreserved digits |
| JsText.EncodeUriComponent | store/components/search/global-search.tsx:74 | `encodeURIComponent` output holds only unreserved characters and `%`, is never shorter, and leaves all-unreserved input unchanged |
| Products.ArrayField | store/actions/get-products.tsx:49-55 | `json.key` counts as a product array exactly when the body is an object whose field is an array |
| Products.Normalize | store/actions/get-products.tsx:44-57 | A bare array is returned as it is; otherwise a non-empty result is the `products` array, or, when there is none, the `data` array; a body that is neither an array nor an object gives `[]` |
| Products.BareArrayRoundTrip | store/actions/get-products.tsx:45-47 | A bare array comes back element for element, in order |
| Products.ProductsEnvelopeRoundTrip | store/actions/get-products.tsx:49-51 | `{ products: [...] }` comes back unwrapped, whatever else the envelope holds |
| Products.DataEnvelopeRoundTrip | store/actions/get-products.tsx:53-55 | `{ data: [...] }` comes back unwrapped when there is no `products` array |
| Products.ProductsBeforeData | store/actions/get-products.tsx:49-55 | When both `products` and `data` are arrays, `products` is returned |
| Products.OtherShapesAreEmpty | store/actions/get-products.tsx:57 | Every other shape gives `[]` |
| Products.ProductsOf | store/actions/get-products.tsx:58-61 | A failure anywhere gives `[]`; a parsed body gives its normalisation |
| Products.Controller.constructor | store/actions/get-products.tsx:35 | A new controller is not aborted |
| Products.Controller.Abort | store/actions/get-products.tsx:33 | After `abort` the controller is aborted |
| Products.Fetcher.constructor | store/actions/get-products.tsx:6 | The module-level slot starts unset, and no controller has been issued |
| Products.Fetcher.GetProducts | store/actions/get-products.tsx:21-62 | Returns the normalised products. In the browser, the previous controller is aborted, a fresh one is stored and its signal passed on. Elsewhere the slot is untouched and no signal is passed. The invariant is kept |
| Products.Fetcher.AtMostOneLive | store/actions/get-products.tsx:31-36 | Only the newest controller ever issued can still be live |
| GlobalSearch.UrlQuery | store/components/search/global-search.tsx:26 | The query from the URL is `?q=`, or the empty string when absent |
| GlobalSearch.SubmitUrl | store/components/search/global-search.tsx:73-74 | The target is `/search` exactly when the trimmed query is blank; otherwise it is `/search?q=` followed by `encodeURIComponent` of the trimmed query, a value with no `&`, `#` or `=` that is therefore the whole `q` parameter |
| GlobalSearch.SubmitUrlPaddedWord | store/components/search/global-search.tsx:73-74 | Submitting `  shoe ` goes to `/search?q=shoe` |
| GlobalSearch.SubmitUrlIgnoresSurroundingSpace | store/components/search/global-search.tsx:73-74 | Surrounding whitespace does not change the target |
| GlobalSearch.SubmitUrlPlainQuery | store/components/search/global-search.tsx:74 | A query of unreserved characters lands in the URL exactly as trimmed |
| GlobalSearch.ProductUrl | store/components/search/global-search.tsx:81 | A product page URL is `/product/` followed by exactly the id |
| GlobalSearch.FirstResults | store/components/search/global-search.tsx:57 | The shown results are the first `min(5, n)` fetched products, in order |
| GlobalSearch.SearchBox.ShowContent | store/components/search/global-search.tsx:92-93 | Content is shown only while the popover is open; an open popover with a non-blank query shows it; with no spinner, no results and a blank query it is hidden |
| GlobalSearch.SearchBox.QueryEffect | store/components/search/global-search.tsx:37-69 | The old timer is cleared. A blank query then empties the results, stops the spinner and closes the popover. Any other query opens it, shows the spinner and arms one timer for the trimmed query |
| GlobalSearch.SearchBox.constructor | store/components/search/global-search.tsx:26-34 | The query starts from `?q=`, and the debounce effect runs once for it |
| GlobalSearch.SearchBox.SetQuery | store/components/search/global-search.tsx:37-69 | The effect runs only when the query value changes; otherwise nothing else moves |
| GlobalSearch.SearchBox.SyncFromUrl | store/components/search/global-search.tsx:32-69 | The query follows the URL's `?q=`. When that changes it, the debounce effect runs: a blank value empties the results, stops the spinner, closes the popover and drops the timer; any other value opens the popover, shows the spinner and arms a timer for it, keeping the results. An unchanged value moves nothing |
| GlobalSearch.SearchBox.Type | store/components/search/global-search.tsx:110-119 | The query takes the typed value. The popover is open exactly when the trimmed value is not blank. A changed, non-blank value gets a new timer for its trimmed form and keeps the results; a blank one drops the timer, the spinner and (when changed) the results; an unchanged value keeps timer, spinner and results |
| GlobalSearch.SearchBox.FireTimer | store/components/search/global-search.tsx:51-55 | The pending timer fires one request, for its own term, and is gone |
| GlobalSearch.SearchBox.Settle | store/components/search/global-search.tsx:57-63 | The results become the first five of the data, and the spinner stops |
| GlobalSearch.SearchBox.Fail | store/components/search/global-search.tsx:58-63 | A rejected search leaves no results, and the spinner stops (unreachable with `getProducts` as written, which never rejects) |
| GlobalSearch.SearchBox.Submit | store/components/search/global-search.tsx:71-78 | Navigates to `SubmitUrl(query)` and closes the popover. The "View all results" button does the same (lines 207-215) |
| GlobalSearch.SearchBox.Select | store/components/search/global-search.tsx:80-84 | Navigates to the picked product's page and closes the popover |
| GlobalSearch.SearchBox.Clear | store/components/search/global-search.tsx:86-90 | Empty query, no results, popover closed, no timer left, no content shown |
| GlobalSearch.SearchBox.OpenChange | store/components/search/global-search.tsx:98-102 | A request to close is ignored while the trimmed query is not blank; any other request is granted |
| GlobalSearch.SearchBox.Focus | store/components/search/global-search.tsx:122-126 | Focus opens the popover when there is a query or there are results; otherwise nothing changes |
| GlobalSearch.SearchBox.InteractOutside | store/components/search/global-search.tsx:152-159 | A click outside closes the popover only when the trimmed query is blank |
| GlobalSearch.DebounceOneRequest | store/components/search/global-search.tsx:37-69 | Typing `s`, `sh`, `sho`, `shoe` before the timer fires makes exactly one request, for `shoe` |
| GlobalSearch.StaleResultsAfterClear | store/components/search/global-search.tsx:57 | A search that settles after the query was cleared still fills the results |

## Left out

- Rendering, styling, images, the Radix popover's own focus handling, and the
  layout-only components are not modelled. That includes the product card,
  whose quick add is modelled only as an addition with no selection.
- Notifications are recorded as one label per operation (`Event`). The toast
  library and translated strings are not modelled.
- The zustand `persist` layer, JSON storage and `localStorage` are not
  modelled. Only the `migrate` hook is, as a function on a snapshot value. A
  snapshot's extra fields are a string map.
- `CartStore.Cart.AddItem` and `CartStore.Cart.RemoveItem`: the source copies
  the array but updates the shared line object in place, so the previous
  state's line changes too. The model works on line values and does not
  capture that aliasing.
- `Products.Fetcher.GetProducts`: the query string building, `fetch`,
  `res.json()` and the abort signal's effect on the request are not
  modelled. The response is a parameter: either a parsed body or a failure. A
  request aborted by a later call is a failure, and it resolves to `[]`. The
  HTTP status is not inspected by the source, and so not by the model.
- JSON numbers are integers. A product list holds JSON values, because the
  source casts the array to products without checking its elements.
- `JsText.ToUpperCase`: upper-cases ASCII letters only. Full Unicode case
  mapping is not modelled; it can change length and maps, for example, `ſ`
  to `S`.
- `SizeOrder.CompareSizes`: the locale compare (`localeCompare` with
  `numeric: true`) is a function parameter. The sorting lemmas require it to
  be sign-antisymmetric and transitive; collation itself is not modelled.
- `SizeOrder.SortBy`: `Array.prototype.sort` is modelled as a stable
  insertion sort. It is proved to be a sorted permutation. That it equals
  every other stable sort with the same comparator is not proved.
- `GlobalSearch.SearchBox`: time is not modelled. The timer fires, and a
  search settles or fails, when the corresponding method is called. A
  search's data is a parameter of `Settle`, and the optional
  `onResultSelect` callback is not modelled.
- `GlobalSearch.SearchBox.Settle`: the source does not check that a settling
  search still belongs to the current query, and neither does the model (see
  `GlobalSearch.StaleResultsAfterClear`). A stricter design would let the
  newest search win and discard stale results; the code does neither, and the
  model follows the code.
- `CartStore.ItemIdInjective`: injectivity holds only under side conditions.
  A stricter design would keep the `none` placeholder from colliding with a
  real id; the code lets it collide, and so can a `:` inside an id (see
  `CartStore.ItemIdCollisions`). The model follows the code.
- A filter/query-string codec, a cart price total and an order-submission
  projection are not part of the code modelled here.
- `JsText.EncodeUriComponent`: a Dafny string holds Unicode scalar values, so
  it cannot hold the lone surrogate a UTF-16 JavaScript string can (from a
  paste, say). On such a query `encodeURIComponent` throws `URIError`: in
  `onSubmit` before the navigation and before the popover closes, and in
  `getProducts` while the URL is built, before the stored controller is
  aborted or replaced. Those throw paths are not modelled.
