# Shopping-cart line items

A model of the cart held by `CartProvider` in `src/hooks/cart.tsx`, a React
Native hook that keeps the shopping cart of a marketplace app. The cart is an
ordered list of products (`id`, `title`, `image_url`, `price`, `quantity`)
keyed by `id`. Three callbacks change it: `addToCart`, `increment` and
`decrement`. Each one computes a new list from the current one, installs it
with `setProducts`, and writes a list to device storage under the key
`@GoMarketplace:cart`.

- `CartItems.dfy` (module `CartItems`) holds the list as a value. It has the
  line datatype and the pure transformations the callbacks compute: `find`
  by id, `map` over the lines with a per-id replacement, and append.
- `CartProperties.dfy` (module `CartProperties`) relates several calls to each other.
  Its lemmas cover uniqueness of ids, increment/decrement undoing each
  other, adding the same id twice, and the stale snapshot that `addToCart`
  writes.
- `CartHook.dfy` (module `CartHook`) holds the provider's state. The class
  `CartProvider` has the `products` field, which each method replaces
  wholesale. Its ghost field `lastWrite` records the list that the last
  callback wrote to storage.

The model follows what the code does, in three places where a reader of
the design might expect something else:

- `find` returns the first line with the id. When the list already holds
  the id, `map` rebuilds every line with that id, each with the first
  match's quantity plus one. When ids are unique (the lemma
  `AddToCartExisting`), this is the single matching line. Otherwise all
  duplicates change, not just one.
- `addToCart` writes the list as it was before the call (`products` is the
  value the callback closed over). `increment` and `decrement` write the new
  list. `AddToCartChangesList` shows that the snapshot `addToCart` writes
  never equals the list the cart holds afterwards.
- `decrement` has no floor, so a quantity can reach zero or go below it.

`price` is a JavaScript number that the code only copies. It is modelled as
a `real` that no operation inspects. `quantity` is an unbounded `int`.

## Model

| member | source | states |
|---|---|---|
| `CartItems.Find` | src/hooks/cart.tsx:47 | finds nothing exactly when no line has the id; otherwise returns the first line with that id |
| `CartItems.MapMatching` | src/hooks/cart.tsx:51-54 | keeps the length and order; each line with the id becomes `f` of it, and every other line is unchanged |
| `CartItems.Increment` | src/hooks/cart.tsx:96-98 | keeps length, order and ids; each line with the id gains exactly one unit and keeps its other fields; other lines are unchanged |
| `CartItems.Decrement` | src/hooks/cart.tsx:126-128 | keeps length, order and ids; each line with the id loses exactly one unit with no floor and keeps its other fields; other lines are unchanged |
| `CartItems.AddToCart` | src/hooks/cart.tsx:47-57 | absent id: appends one line with the incoming fields and quantity 1 after the unchanged earlier lines; present id: keeps the length, and every line with the id takes the incoming title, image and price with the first match's quantity + 1; lines with other ids are unchanged and stay in place |
| `CartProperties.AddToCartKeepsIdsUnique` | src/hooks/cart.tsx:47-57 | a list with unique ids still has unique ids after addToCart |
| `CartProperties.IncrementKeepsIdsUnique` | src/hooks/cart.tsx:96-98 | a list with unique ids still has unique ids after increment |
| `CartProperties.DecrementKeepsIdsUnique` | src/hooks/cart.tsx:126-128 | a list with unique ids still has unique ids after decrement |
| `CartProperties.AddToCartExisting` | src/hooks/cart.tsx:47-55 | with unique ids, adding a present id replaces exactly the matching line with the incoming fields and its quantity + 1; every other line is unchanged |
| `CartProperties.IncrementAbsentIsIdentity` | src/hooks/cart.tsx:96-98 | incrementing an id no line has leaves the list identical |
| `CartProperties.DecrementAbsentIsIdentity` | src/hooks/cart.tsx:126-128 | decrementing an id no line has leaves the list identical |
| `CartProperties.DecrementUndoesIncrement` | src/hooks/cart.tsx:96-128 | increment then decrement of the same id restores the original list exactly |
| `CartProperties.IncrementUndoesDecrement` | src/hooks/cart.tsx:96-128 | decrement then increment of the same id restores the original list exactly |
| `CartProperties.AddToCartChangesList` | src/hooks/cart.tsx:45-63 | addToCart never returns the list it was given, so the pre-call snapshot it writes always differs from the new list |
| `CartProperties.AddTwoDistinct` | src/hooks/cart.tsx:57 | adding two new products with distinct ids appends both, in call order, with one unit each |
| `CartProperties.AddSameIdTwice` | src/hooks/cart.tsx:47-57 | adding a new product and then one with the same id leaves a single line with two units and the second product's title, image and price |
| `CartProperties.Walkthrough` | src/hooks/cart.tsx:45-128 | from an empty cart: add p1, add p2, increment p1, decrement p2 gives exactly [p1 with 2 units, p2 with 0 units] |
| `CartHook.CartProvider.constructor` | src/hooks/cart.tsx:29 | the provider starts with an empty list and has written nothing |
| `CartHook.CartProvider.AddToCart` | src/hooks/cart.tsx:45-63 | the new list is `AddToCart` of the old one; the list written is the old list, never the new one; unique ids stay unique |
| `CartHook.CartProvider.Increment` | src/hooks/cart.tsx:94-105 | the new list is `Increment` of the old one and is also the list written; unique ids stay unique |
| `CartHook.CartProvider.Decrement` | src/hooks/cart.tsx:124-135 | the new list is `Decrement` of the old one and is also the list written; unique ids stay unique |

## Left out

- Loading the stored cart when the provider mounts (`useEffect` with `AsyncStorage.getItem`, src/hooks/cart.tsx:31-43) is not modelled. It is device I/O. The restore-after-restart property therefore goes unmodelled too.
- `AsyncStorage.setItem` is not modelled as I/O. Only the list it is given is kept, in the ghost field `lastWrite`. The write's completion and failure are not modelled.
- `JSON.stringify` and `JSON.parse` are library serialisation and are not part of this model.
- The stale-closure race is not modelled. Two callbacks fired before React re-renders both start from the same captured `products`, and one update is lost. That comes from React's scheduling, not from the list logic. The model applies calls one after another.
- React wiring is not modelled: `createContext`, `useState`, `useCallback`/`useMemo` memoisation and the provider's render (src/hooks/cart.tsx:26-29, 156-161).
- `useCart`'s "must be used within a CartProvider" error (src/hooks/cart.tsx:164-171) is not modelled. It is a context lookup of the UI framework.
- The commented-out earlier implementations in each callback are dead code and are not modelled.
- `price` is a JavaScript floating-point number. It is modelled as a `real` that is only copied, because the code never computes with it.
