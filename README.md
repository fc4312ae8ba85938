# Healthy-food storefront pages: catalog, cart and lead form

A Dafny model of the logic inside three React pages of a healthy-food
storefront:

- **Products page** (`ProductCatalog`, `ProductCart`). The static product
  list is projected to the visible list. A conjunctive filter keeps a
  product when the selected category is `'all'` or equals its category,
  and its lower-cased name contains the lower-cased search term. A copy of
  the result is then sorted by price ascending, rating descending, or
  (for any other key, the default `'name'`) by `localeCompare` on the
  name. "Add to cart" reads the cart stored under the `cart` key (a
  missing value reads as `[]`). It finds the first line item with the
  product's id and increments its quantity, or appends the product with
  quantity 1. Then it writes the whole array back.
- **Cart context** (`CartContext`). A provider holds an append-only item
  list (`addItem` appends and does not de-duplicate). `useCart` returns
  the provider's value or throws when there is no provider.
- **Awareness program page** (`AwarenessForm`). A seven-field lead-capture
  record starts all empty. Each input event writes one named field, and
  submitting resets the record to all empty.

Modelling choices:

- Prices are whole cents and ratings whole tenths of a star. The
  comparator's differences then have the sign of the source's
  floating-point differences.
- `localeCompare` is a parameter: any function on string pairs that is a
  consistent comparator, as `Array.prototype.sort` requires. Swapping
  arguments flips the sign, and "not after" is transitive.
- `toLowerCase` lowers ASCII letters only.
- The sort is a pure insertion sort on the filtered value; the source
  sorts a spread copy, so the filtered list is never changed.
- Browser storage is an `Option<seq<LineItem>>` passed in, and the array
  to store back is returned.
- The form record is a `map<string, string>` because the handler writes
  the key named by the event target. A name outside the seven fields would
  add a key, as the object spread in the source does. Every input on the
  page (src/pages/AwarenessProgramPage.tsx:362-443) is named after one of
  the seven fields, so the form class requires such a name and keeps the
  record's keys equal to the seven fields.

## Model

| member | source | states |
|---|---|---|
| `ProductCatalog.LowerIdempotent` | src/pages/ProductsPage.tsx:89 | lowering a lowered string changes nothing |
| `ProductCatalog.ContainsIff` | src/pages/ProductsPage.tsx:89 | `includes` holds exactly when the term occurs at some offset of the name (both directions) |
| `ProductCatalog.Filter` | src/pages/ProductsPage.tsx:87-91 | every kept product is one of the input products and passes both the category and the search test |
| `ProductCatalog.FilterCounts` | src/pages/ProductsPage.tsx:87-91 | a product that passes both tests keeps every occurrence; any other product has none |
| `ProductCatalog.FilterAppend` | src/pages/ProductsPage.tsx:87-91 | filtering distributes over concatenation, so source order is kept |
| `ProductCatalog.FilterAllEmptyIsIdentity` | src/pages/ProductsPage.tsx:87-91 | category `'all'` with an empty search returns every product in the original order |
| `ProductCatalog.SearchIgnoresCase` | src/pages/ProductsPage.tsx:89 | the search term matches the same products as its lower-cased form |
| `ProductCatalog.CompareConsistent` | src/pages/ProductsPage.tsx:93-97 | the sort callback flips sign when its arguments swap and is transitive, for every sort key, given a consistent `localeCompare` |
| `ProductCatalog.Insert` | src/pages/ProductsPage.tsx:93-97 | inserting one product adds exactly that product to the multiset |
| `ProductCatalog.SortProducts` | src/pages/ProductsPage.tsx:93 | the sorted copy is a permutation of the filtered list |
| `ProductCatalog.InsertSorted` | src/pages/ProductsPage.tsx:93-97 | inserting into a list ordered by the callback keeps it ordered |
| `ProductCatalog.SortProductsSorted` | src/pages/ProductsPage.tsx:93-97 | no product of the sorted copy comes after a later one under the callback |
| `ProductCatalog.VisibleProducts` | src/pages/ProductsPage.tsx:87-97 | the visible list holds exactly the filtered products, with their multiplicities |
| `ProductCatalog.VisibleProductsOrdered` | src/pages/ProductsPage.tsx:94-96 | by `'price'` prices never decrease; by `'rating'` ratings never increase; by any other key names follow `localeCompare` |
| `ProductCatalog.InitialViewShowsEveryProduct` | src/pages/ProductsPage.tsx:5-7 | the initial state (`'all'`, empty search, `'name'`) shows every product, in name order |
| `ProductCatalog.TwoProductExample` | src/pages/ProductsPage.tsx:93-97 | A (10, 4.9) and B (5, 4.5) sort to B, A by price and to A, B by rating |
| `ProductCart.FirstIndexOf` | src/pages/ProductsPage.tsx:104 | `find` gives the first line item with the id, or none when no item has it |
| `ProductCart.StoredCart` | src/pages/ProductsPage.tsx:103 | a missing stored cart reads as the empty cart, a stored one as itself |
| `ProductCart.AddToMissingCart` | src/pages/ProductsPage.tsx:103-110 | adding with no stored cart gives a cart of just that product, with quantity 1 |
| `ProductCart.HandleAddToCart` | src/pages/ProductsPage.tsx:102-110 | the loop-and-update on the loaded cart returns exactly the cart the add specifies |
| `ProductCart.AddExisting` | src/pages/ProductsPage.tsx:104-106 | a product already present: same length, its first line item's quantity one more, every other item unchanged |
| `ProductCart.AddAbsent` | src/pages/ProductsPage.tsx:107-108 | a product not present: the old items as a prefix and one new last item with the product and quantity 1 |
| `ProductCart.AddKeepsIdsUnique` | src/pages/ProductsPage.tsx:103-110 | ids unique before an add are unique after it |
| `ProductCart.AddRaisesTotalByOne` | src/pages/ProductsPage.tsx:103-110 | the total quantity grows by exactly one |
| `ProductCart.AddTwice` | src/pages/ProductsPage.tsx:104-108 | adding a new product twice yields one line item with quantity 2 |
| `CartContext.Appended` | src/pages/CartContext.tsx:13 | the new list is one longer, keeps the old items as a prefix and ends with the added item |
| `CartContext.AppendedTwiceKeepsBoth` | src/pages/CartContext.tsx:13 | adding the same item twice leaves two new entries of it |
| `CartContext.CartProvider.constructor` | src/pages/CartContext.tsx:11 | a provider starts with no items |
| `CartContext.ConsumerSeesAdd` | src/pages/CartContext.tsx:13-25 | after a consumer's `addItem`, `useCart` inside the provider succeeds and shows the provider's old items followed by the new one |
| `CartContext.CartProvider.AddItem` | src/pages/CartContext.tsx:13 | the held list becomes the old list with the item appended |
| `CartContext.UseCart` | src/pages/CartContext.tsx:22-25 | fails with the usage error exactly when there is no provider, and otherwise returns the provider's value unchanged |
| `AwarenessForm.EmptyForm` | src/pages/AwarenessProgramPage.tsx:5-13 | the initial record has exactly the seven fields, all empty |
| `AwarenessForm.WithInput` | src/pages/AwarenessProgramPage.tsx:119-124 | the named field gets the value and every other field keeps its value |
| `AwarenessForm.InputChangeIdempotent` | src/pages/AwarenessProgramPage.tsx:119-124 | the same input change twice gives the record it gives once |
| `AwarenessForm.InputChangesCommute` | src/pages/AwarenessProgramPage.tsx:120-122 | changes to two different fields commute |
| `AwarenessForm.SubmitIdempotent` | src/pages/AwarenessProgramPage.tsx:130-138 | submitting twice gives the state submitting once gives, the empty record |
| `AwarenessForm.RunKeepsFields` | src/pages/AwarenessProgramPage.tsx:119-138 | no sequence of input changes and submits loses one of the seven fields |
| `AwarenessForm.RunEndingInSubmit` | src/pages/AwarenessProgramPage.tsx:126-139 | whatever events came before, a submit leaves the empty record |
| `AwarenessForm.LeadCaptureForm.constructor` | src/pages/AwarenessProgramPage.tsx:5-13 | the form starts as the empty record |
| `AwarenessForm.LeadCaptureForm.HandleInputChange` | src/pages/AwarenessProgramPage.tsx:119-124 | the record becomes the old one with the named field set, and keeps exactly the seven fields |
| `AwarenessForm.LeadCaptureForm.HandleSubmit` | src/pages/AwarenessProgramPage.tsx:126-139 | returns the record as it was and resets the form to the empty record |

## Left out

- Rendering, layout, images and their `onError` fallbacks: presentation only.
- The static arrays (`products`, `categories`, `curriculumHighlights`, `timeline`, `schoolSuccessStories`): data, not logic. The model takes the product list as an input.
- `convertToINR`: floating-point multiplication and `toFixed` formatting.
- Floating-point prices and ratings: they are integers here (cents, tenths).
- The locale rules of `localeCompare`: it is any consistent comparator passed in.
- Unicode case mapping in `toLowerCase`: only ASCII letters are lowered.
- `localStorage`, `JSON.parse` and `JSON.stringify`: the stored cart is an optional sequence in and a sequence out. Malformed JSON, which the source does not catch, is not modelled.
- `navigate('/cart')`, `console.log`, `alert`, `preventDefault`: side effects. The value handed to `console.log` is `HandleSubmit`'s result.
- Concurrent tabs writing the `cart` key: a race the source does not handle.
- ProductCatalog.SortProducts: the tie order of the sort is not stated. JavaScript's sort is stable; the insertion sort here is too, but that is not proved.
- CartContext.CartProvider.AddItem: `addItem` closes over the `items` of the last render. Two calls within one event handler both append to that same snapshot, so only the last survives. The model assumes a re-render between calls.
- CartContext.CartProvider.Value: the published value holds the items only. The `addItem` closure that the provider also publishes is not part of it; `ConsumerSeesAdd` stands for a consumer calling it.
- React's `useState`, `createContext` and `useContext` machinery: only the state they hold is modelled. `UseCart` takes the enclosing provider's value as an optional input.
