# ai-ecommerce-bot in Dafny

A model of the store logic behind the AI e-commerce chat bot. It covers the
browser-side stores for the cart, orders and viewed history, the generated
product catalog and its queries, and the part of the chat endpoint that builds
the text sent to the language model.

- `seqs.dfy` (`Seqs`): the JavaScript array operations the stores use, with
  their own semantics: `filter`, `findIndex`, `find`, `slice` with negative
  bounds, and `join`.
- `text.dfy` (`Text`): the string operations involved. These are
  `toLowerCase` on ASCII, `trim` over the ECMAScript whitespace set,
  `includes`, and how a template literal renders an integer, taken as an
  exact integer of any size.
- `cart.dfy` (`Cart`): `CartStore` is a class whose `items` field stands
  for the stored list. `add` merges a line for the same product or appends
  one, `remove` filters, and `setQty` clamps the quantity to at least 1.
  `subtotal` is a loop proved equal to `Total`. Every operation keeps the
  store's invariant of one line per product, and lemmas show how each
  operation changes the subtotal.
- `orders.dfy` (`Orders`): `OrderStore` appends orders and rewrites one
  order's status in place. The finders are specified both ways: what they
  return, and that nothing matching is missed. Email matching is exact.
- `history.dfy` (`History`): every write keeps the last 50 entries. Any run
  of pushes leaves the last 50 items pushed.
- `products.dfy` (`Products`): `makeProduct`, the `toSlug` pipeline, and the
  nested loop that builds `allProducts`. The loop is a method proved equal
  to the catalog function. The catalog's layout is proved:
  - ids 1 to 50;
  - ten products per category, in category order;
  - featured exactly at ids ending in 1;
  - distinct, well-formed slugs.

  `getFeaturedProducts`, `getProductBySlug` and `searchProducts` are then
  characterised on it.
- `chat_route.dfy` (`ChatRoute`): the request context is defaulted. The
  contextual message is assembled. The reply is 200 with the model's text,
  or the fixed 500 error. The language model is a parameter
  `send: string -> Option<string>`, where `None` stands for a failed or
  throwing call.

Money is integer cents throughout: `20 + (id % 10) * 7.5` dollars is
`2000 + 750 * (id % 10)` cents.

The chat route in this revision of the code has no rate limiting, intent
classification, order lookup or streamed delivery: it only wraps the message
in a context and calls the model, and that is what is modelled. Order lookup
by email in `lib/orders.ts` compares with `===`, so it is exact and
case-sensitive; `Orders.EmailMatchIsExact` states this.

## Model

| member | source | states |
|---|---|---|
| Seqs.Filter | lib/cart.ts:43 | `filter` keeps only elements satisfying the predicate and never grows the list |
| Seqs.FilterMembers | lib/orders.ts:42-44 | every kept element comes from the list, and every element satisfying the predicate is kept |
| Seqs.FilterAppend | lib/orders.ts:45-47 | filtering a concatenation is the concatenation of the filtered parts (order is kept) |
| Seqs.FilterSlice | data/products.ts:131 | when exactly the elements of one contiguous stretch pass, `filter` returns that stretch |
| Seqs.FindIndex | lib/cart.ts:33 | `findIndex` is the first index whose element passes, and -1 exactly when none passes |
| Seqs.FindIndexAppend | lib/orders.ts:33-38 | appending an element does not move an earlier match; without one, the new last index is found if it passes |
| Seqs.FindIndexUpdate | lib/orders.ts:48-57 | replacing the first match by an element that still passes leaves the index unchanged |
| Seqs.Find | lib/orders.ts:40 | `find` yields the first passing element of the list, and nothing exactly when none passes |
| Seqs.SliceTo | data/products.ts:132 | `slice(0, end)` is a prefix: the first `end` elements, or the whole list when `end` is past its end |
| Seqs.SliceFrom | lib/history.ts:17 | `slice(start)` is a suffix; with a negative start it has `min(-start, length)` elements |
| Seqs.Join | app/api/chat/route.ts:60 | `join` has the total length of the parts plus one separator between each, and starts with the first part |
| Text.LowerChar | data/products.ts:92 | lower-casing leaves no ASCII capital and keeps every other character |
| Text.Lower | data/products.ts:140 | `toLowerCase` keeps the length and lower-cases each character |
| Text.NatToDecimal | data/products.ts:99 | an id renders as a non-empty run of digits with no leading zero |
| Text.DecimalRoundTrip | data/products.ts:99 | reading back a rendered id gives the id, so distinct ids render differently |
| Text.IntToDecimal | app/api/chat/route.ts:60 | a negative integer renders as a minus sign followed by its magnitude |
| Text.Trim | data/products.ts:140 | `trim` never lengthens the text; `Text.TrimSpan` and `Text.TrimEnds` state what it keeps |
| Text.TrimSpan | data/products.ts:140 | `trim` returns the stretch right after the leading whitespace, with only whitespace after it |
| Text.TrimEnds | data/products.ts:140 | the trimmed text neither starts nor ends with whitespace |
| Text.Contains | data/products.ts:144 | `includes` holds for the empty query, and never for a query longer than the text; `Text.ContainsSpec` gives the full characterisation |
| Text.ContainsSpec | data/products.ts:144 | `includes` holds exactly when the query occurs at some position of the text |
| Cart.Added | lib/cart.ts:31-41 | after `add` the cart has a line for the product, and it gains a line only when it had none |
| Cart.Removed | lib/cart.ts:42-46 | after `remove` no line for the product is left, and the cart never grows |
| Cart.WithQty | lib/cart.ts:47-55 | `setQty` keeps the length and the position of the product's line, whose quantity is then at least 1 |
| Cart.Total | lib/cart.ts:60-62 | the subtotal is never negative when no price or quantity is |
| Cart.AddExisting | lib/cart.ts:33-35 | adding a product already in the cart grows that line's quantity by the item's and changes nothing else |
| Cart.AddNew | lib/cart.ts:36-37 | adding a new product appends the item as given, with its quantity unclamped |
| Cart.AddKeepsDistinct | lib/cart.ts:31-41 | `add` keeps at most one line per product |
| Cart.SetQtyEffect | lib/cart.ts:47-55 | `setQty` gives the matching line `max(1, qty)` and changes nothing else; an absent product changes nothing |
| Cart.RemoveKeepsDistinct | lib/cart.ts:42-46 | `remove` keeps at most one line per product |
| Cart.SetQtyKeepsDistinct | lib/cart.ts:47-55 | `setQty` keeps at most one line per product |
| Cart.RemoveEffect | lib/cart.ts:42-46 | after `remove`, no line is for the product, every other line is kept, in its original order |
| Cart.TotalAppend | lib/cart.ts:60-62 | the subtotal of a concatenation is the sum of the subtotals |
| Cart.TotalUpdate | lib/cart.ts:60-62 | replacing a line changes the subtotal by the difference of the two line totals |
| Cart.AddTotal | lib/cart.ts:31-41 | `add` raises the subtotal by the item's quantity times the price of the line it lands on |
| Cart.SetQtyTotal | lib/cart.ts:47-55 | `setQty` changes the subtotal by the line's price times the change in its quantity, and not at all for an absent product |
| Cart.RemovedAt | lib/cart.ts:42-46 | with one line per product, `remove` takes out exactly that product's line |
| Cart.RemoveTotal | lib/cart.ts:42-46 | with one line per product, `remove` lowers the subtotal by exactly that line's total |
| Cart.CartStore.constructor | lib/cart.ts:12-20 | missing or unreadable storage reads as the empty cart, which has one line per product |
| Cart.CartStore.Get | lib/cart.ts:28-30 | `get` returns the stored lines |
| Cart.CartStore.Add | lib/cart.ts:31-41 | the stored cart becomes `Added` of the old one, and that list is returned; one line per product is kept |
| Cart.CartStore.Remove | lib/cart.ts:42-46 | the stored cart becomes `Removed` of the old one, and that list is returned; one line per product is kept |
| Cart.CartStore.SetQty | lib/cart.ts:47-55 | the stored cart becomes `WithQty` of the old one, and that list is returned; one line per product is kept |
| Cart.CartStore.Clear | lib/cart.ts:56-59 | the stored cart and the result are empty, so one line per product holds again |
| Cart.CartStore.Subtotal | lib/cart.ts:60-62 | the loop's sum of `price * qty` equals `Total` of the stored lines |
| Orders.ById | lib/orders.ts:39-41 | `findById` returns, if anything, a stored order with exactly that id |
| Orders.ByEmail | lib/orders.ts:42-44 | `findByEmail` returns no more orders than are stored, each with exactly that email |
| Orders.ByUser | lib/orders.ts:45-47 | `findByUser` returns no more orders than are stored, each with exactly that user id |
| Orders.StatusUpdated | lib/orders.ts:48-57 | `updateStatus` adds, drops and moves no order, and changes at most a status |
| Orders.ByIdSpec | lib/orders.ts:39-41 | `findById` returns the first order with exactly that id, and null exactly when none has it |
| Orders.FindersSpec | lib/orders.ts:42-47 | `findByEmail` and `findByUser` return exactly the orders with that email or user id, in stored order |
| Orders.EmailMatchIsExact | lib/orders.ts:42-44 | a stored order is found by an address exactly when it carries that very address: a differently-cased address, or any address for an order without email, finds nothing |
| Orders.CreateThenFind | lib/orders.ts:33-38 | after `create`, the finders return what they did before, then the new order if it matches |
| Orders.CreateThenFindById | lib/orders.ts:33-38 | after `create`, `findById` returns the new order unless an earlier order already has its id |
| Orders.UpdateStatusFound | lib/orders.ts:48-57 | `updateStatus` on a present id changes only that order's status, and `findById` then returns the updated order |
| Orders.UpdateStatusMissing | lib/orders.ts:48-57 | `updateStatus` on an absent id leaves the orders unchanged |
| Orders.OrderStore.constructor | lib/orders.ts:14-22 | missing or unreadable storage reads as no orders |
| Orders.OrderStore.All | lib/orders.ts:30-32 | `all` returns the stored orders |
| Orders.OrderStore.Create | lib/orders.ts:33-38 | the order is appended and returned unchanged |
| Orders.OrderStore.FindById | lib/orders.ts:39-41 | returns `ById` of the stored orders |
| Orders.OrderStore.FindByEmail | lib/orders.ts:42-44 | returns `ByEmail` of the stored orders |
| Orders.OrderStore.FindByUser | lib/orders.ts:45-47 | returns `ByUser` of the stored orders |
| Orders.OrderStore.UpdateStatus | lib/orders.ts:48-57 | the stored orders become `StatusUpdated`; the updated order is returned, carrying the id and the new status, or null |
| History.Stored | lib/history.ts:15-18 | a write stores a suffix of at most 50 entries, the whole list when it is that short |
| History.StoredIsLastFifty | lib/history.ts:15-18 | a write stores the last `min(50, n)` entries of what it is given, in order |
| History.PushKeepsNewest | lib/history.ts:21-26 | after a push, the new item is the last stored entry, preceded by the newest old ones |
| History.StoredAppend | lib/history.ts:15-18 | truncating before appending keeps what one truncation at the end would keep |
| History.ReplayKeepsLastFifty | lib/history.ts:21-26 | any run of pushes leaves exactly the last 50 entries of everything pushed |
| History.HistoryStore.constructor | lib/history.ts:5-13 | missing or unreadable storage reads as the empty history |
| History.HistoryStore.Push | lib/history.ts:21-26 | the returned list is the old one plus the item (up to 51 entries), and the stored one is its last 50 |
| History.HistoryStore.Get | lib/history.ts:27-29 | `get` returns the stored entries |
| History.HistoryStore.Clear | lib/history.ts:30-32 | the history becomes empty |
| Products.CategoryIndex | data/products.ts:23-29 | every category has a position in the `categories` list |
| Products.ImageIndex | data/products.ts:52-53 | the image picked for a product is always one of its category's images |
| Products.CollapseRuns | data/products.ts:92 | replacing runs never lengthens the text and leaves it empty only when it was |
| Products.TrimDashes | data/products.ts:92 | stripping dashes removes at most two characters, and nothing from text with no dash at either end |
| Products.ToSlug | data/products.ts:91-93 | a slug is never longer than the title; `Products.ToSlugIsSlug` states its shape |
| Products.CollapseRunsShape | data/products.ts:92 | replacing runs of non-slug characters leaves slug characters separated by single dashes |
| Products.TrimDashesIsSlug | data/products.ts:92 | stripping a leading and a trailing dash from such a string leaves a well-formed slug |
| Products.ToSlugIsSlug | data/products.ts:91-93 | `toSlug` always yields lower-case letters and digits, with single dashes only between them |
| Products.CollapseRunsKeeps | data/products.ts:92 | a string made only of slug characters passes through unchanged |
| Products.CategoryNameIsLetters | data/products.ts:1-6 | category names are non-empty and made of letters only |
| Products.CategorySlug | data/products.ts:99 | a category's slug is its lower-cased name, with no dash |
| Products.TitleNumber | data/products.ts:96 | the number in a title is between 1 and 10 and has the id's last digit |
| Products.ProductFields | data/products.ts:95-109 | `makeProduct` gives a price from $20.00 to $87.50 in $7.50 steps, inventory 10 to 24, and featured exactly at price $27.50 |
| Products.JoinedSlug | data/products.ts:99 | a dashless slug, a dash and digits form a well-formed slug |
| Products.ProductSlugIsSlug | data/products.ts:99 | every product slug is well-formed |
| Products.SlugsDiffer | data/products.ts:99 | products with different ids have different slugs |
| Products.Catalog | data/products.ts:122-124 | `getProducts` returns 50 products |
| Products.BuildCatalog | data/products.ts:111-120 | the nested loop over categories and ten ids each builds exactly `Catalog()` |
| Products.BuildStep | data/products.ts:114-117 | each push keeps the list equal to `makeProduct(k + 1, categories[k / 10])` at every index `k` |
| Products.BuiltIsCatalog | data/products.ts:111-120 | 50 products built in that order are the catalog |
| Products.BuiltAt | data/products.ts:111-120 | product `k` has id `k + 1`, the `(k / 10)`th category, and is featured exactly when `k % 10 == 0` |
| Products.BuiltSlugsDiffer | data/products.ts:111-120 | no two built products share a slug |
| Products.BuiltLayout | data/products.ts:111-120 | the built list has the catalog layout and distinct slugs |
| Products.CatalogLayout | data/products.ts:111-124 | `allProducts` has ids 1 to 50, ten per category in order, featured first in each block, and distinct slugs |
| Products.CategoryBlock | data/products.ts:114-117 | a product is in a category exactly when it sits in that category's block of ten |
| Products.FeaturedIn | data/products.ts:130-133 | `getFeaturedProducts(limit)` returns at most `limit` products, a prefix of the featured ones or of the list |
| Products.FeaturedProducts | data/products.ts:130-133 | on `allProducts`, at most `limit` products and never more than the 50 there are |
| Products.FeaturedInBlock | data/products.ts:107 | the only featured product in a block is its first |
| Products.FeaturedPrefix | data/products.ts:131 | the featured products of the first `n` blocks are the first product of each |
| Products.FeaturedPrefixGrows | data/products.ts:131 | one more block adds exactly its first product to the featured ones |
| Products.FeaturedAreFirstOfEachCategory | data/products.ts:131 | exactly five products are featured: ids 1, 11, 21, 31 and 41 |
| Products.FeaturedFew | data/products.ts:130-133 | a limit up to five returns the first featured products, one per category |
| Products.FeaturedProductsFew | data/products.ts:130-133 | `getFeaturedProducts(limit)` for a limit up to five is products 1, 11, 21, 31, 41 cut to the limit |
| Products.FeaturedProductsMany | data/products.ts:130-133 | a limit above five falls back to the first `limit` products of the catalog (products 1 to 8 for the default 8) |
| Products.BySlug | data/products.ts:135-137 | `getProductBySlug` returns, if anything, a product of the list with exactly that slug |
| Products.ProductBySlug | data/products.ts:135-137 | on `allProducts`, the product returned is a catalog product with that slug |
| Products.BySlugSpec | data/products.ts:135-137 | with distinct slugs, each product is found by its slug, and null exactly when no product has the slug |
| Products.ProductBySlugSpec | data/products.ts:135-137 | `getProductBySlug` finds every catalog product by its slug, and returns null exactly for other slugs |
| Products.SearchIn | data/products.ts:139-146 | `searchProducts` never returns more than the list, and only products of the category when one is given |
| Products.SearchProducts | data/products.ts:139-146 | on `allProducts`, at most 50 results, all of the category when one is given |
| Products.SearchSpec | data/products.ts:139-146 | a product is a result exactly when it is in the category (if given) and the trimmed, lower-cased query is empty or occurs in its lower-cased title and description |
| Products.SearchBlank | data/products.ts:139-146 | a blank query returns the whole list, or the category's block of ten |
| Products.SearchBlankQuery | data/products.ts:139-146 | on the catalog, a blank query returns all 50 products, or that category's ten |
| ChatRoute.RenderLineHasSpace | app/api/chat/route.ts:60 | a rendered cart line is longer than its title, with a space right after the title |
| ChatRoute.CartSummary | app/api/chat/route.ts:60 | the cart summary is never empty |
| ChatRoute.CartSummarySpec | app/api/chat/route.ts:60 | the cart summary is "none" exactly when the cart is empty; otherwise it starts with the first line |
| ChatRoute.ContextualMessage | app/api/chat/route.ts:59-61 | the text sent to the model always ends with the user's message, context or not |
| ChatRoute.NoContextPassesMessage | app/api/chat/route.ts:59-61 | without a context, the message goes to the model unchanged |
| ChatRoute.ContextWrapsMessage | app/api/chat/route.ts:59-61 | with a context, the text starts with the context heading and ends with the message, so different messages give different texts |
| ChatRoute.EmptyContextDefaults | app/api/chat/route.ts:55-57 | `CartOf`, `CategoriesOf` and `ProductCountOf` turn missing or mistyped context entries into no cart items ("none"), no categories and a count of 0 |
| ChatRoute.GivenContextShown | app/api/chat/route.ts:55-57 | `CartOf`, `CategoriesOf` and `ProductCountOf` pass entries of the expected kind through: the cart is summarised, the categories joined with ", ", the count written in decimal |
| ChatRoute.ProductCountShown | app/api/chat/route.ts:57-60 | the product count shown reads back as the count given |
| ChatRoute.HandleChat | app/api/chat/route.ts:63-76 | the handler gives either a 200 answer or the one fixed 500 error, nothing else |
| ChatRoute.HandleChatSpec | app/api/chat/route.ts:63-76 | 200 with the model's text exactly when the body was read and the model answered; every failure gives the same 500 error |

## Left out

- Browser storage, JSON parsing and the `typeof window` guards: a store's
  field stands for the stored list. A missing key, unreadable JSON, and
  server-side rendering all read as the empty list, which the constructors
  state.
- Aliasing: `add` pushes the caller's own item object, and `setQty` and
  `updateStatus` mutate the objects read back from storage. Lines and orders
  are values here. The stored state is modelled, not object identity.
- Floating point: prices and totals are integer cents, so `toFixed(2)` and
  rounding are not modelled.
- Non-integer or non-numeric quantities, ids and product counts, and
  non-string messages or titles: the fields are typed. A product id is a
  natural number.
- Text.IntToDecimal and ChatRoute.ProductCountShown: numbers are exact
  integers of any size here. JavaScript numbers are doubles: integers above
  2^53 are rounded (also in the quantity sum of `add`), and a template literal
  renders a magnitude of 10^21 or more in exponent form ("1e+21"), which the
  model does not.
- ChatRoute.HandleChat: context arrays are taken to hold well-formed entries.
  A cart array with a `null` entry passes `Array.isArray`, makes `i.title`
  throw, and so gets the 500 reply; that path is not modelled.
- Text.LowerChar and Text.Lower: `toLowerCase` is modelled on ASCII only.
  Non-ASCII letters in queries and product text (for example U+0130 or the
  Kelvin sign) are not lower-cased.
- Products.FeaturedIn: `limit` is an integer here. A fractional limit, which
  `slice` truncates and `>=` compares as a fraction, is not modelled.
- `makeSpecs` and the image URL strings of `makeImage`: the specifications
  are presentation only, and of the image only the chosen index is modelled.
- `getCategories` returns the `categories` constant, which is `Categories`
  here. It has no member of its own.
- The language model: `startChat`, `generationConfig`, the initial
  history, and `sendMessage`. They are a parameter `send` whose failure
  is `None`.
- A truthy `context` that is not an object reads as a context with every
  entry missing.
- Response headers, and the `console.error` logging on the failure path.
- Order ids and timestamps are created by callers outside this code, and
  they are plain strings here.
- `lib/policies.ts`, the pages and the UI components are not part of this
  model.
- Rate limiting, intent classification, topic switching and streamed
  replies have no code in this revision, so there is nothing of them to
  model.
