# Cart store model

A Dafny model of the shopping-cart state container of a React Native store
app (`src/hooks/cart.tsx`). The cart is an ordered sequence of `Product`
lines (`id`, `title`, `image_url`, `price`, `quantity`). Three operations
change it: `addToCart`, `increment` and `decrement`. Without the React hooks
and the storage calls, each one is a pure function from the current cart to
the next. This model writes them that way and proves the following:

- ids stay unique and every quantity stays at least one;
- lines keep their order;
- only the targeted line changes;
- decrement at quantity one removes that line and nothing else;
- decrement undoes both increment and addToCart.

Files:

- `products.dfy` (module `Products`): the `Product` line and the `Item` that
  `addToCart` receives. Also the cart invariant (`UniqueIds`, `Positive`,
  `Valid`) and `FindIndex`, which models the array `findIndex` lookup and its
  `-1` for a miss.
- `cart.dfy` (module `CartStore`): the transitions. `Adjust` is the `map`
  that adds `delta` to every line whose id matches. `Remove` is the `filter`
  that drops them. `Increment`, `AddToCart` and `Decrement` are the three
  operations.
- `cart_properties.dfy` (module `CartProperties`): lemmas relating the
  operations to the invariant and to each other.
- `session.dfy` (module `CartSession`): a sequence of consumer calls applied
  one after another, and the proof that any such session keeps a valid cart
  valid.

Semantics are sequential: each call sees the cart the previous call left.
The source reads the closure-captured `products` in `addToCart` and
`decrement` (lines 60 and 71) but applies updater functions in `setProducts`
(lines 53, 63, 75 and 81). When calls are not interleaved, the two views are
the same cart.

`decrement` on an id that is not in the cart faults, as the code does. The
code computes `idx = -1` and reads `products[-1]`, which is `undefined`. It
then reads `.quantity` off it, which throws. `Decrement` therefore returns
`Failure(UndefinedProduct(id))` for an absent id. A hardened version would
make this a no-op. In a session (`CartSession.Session`), a faulting call
leaves the cart unchanged, because the callback throws before it schedules
any update.

`decrement` checks the quantity of the first matching line only. It then maps
or filters every matching line. The model does the same. When ids are unique,
this reduces to updating or removing one line (`DecrementAboveOne`,
`DecrementAtOne`).

## Model

| member | source | states |
|---|---|---|
| Products.FindIndex | src/hooks/cart.tsx:71 | the `findIndex` lookup returns -1 exactly when no line carries the id; otherwise it returns the first index whose line carries it |
| CartStore.Adjust | src/hooks/cart.tsx:75-79 | the `map` step keeps the length; each line with the id has delta added to its quantity; every other line is unchanged |
| CartStore.Remove | src/hooks/cart.tsx:81 | the `filter` step leaves exactly the cart's ids minus the filtered id; a line is in the result exactly when it is in the cart with another id; an absent id leaves the cart unchanged |
| CartProperties.RemoveSingle | src/hooks/cart.tsx:81 | the filter on one line keeps it exactly when its id differs from the filtered id |
| CartProperties.RemoveAppend | src/hooks/cart.tsx:81 | the filter of a concatenation is the concatenation of the filtered parts, so kept lines stay in their original order for any cart |
| CartStore.Increment | src/hooks/cart.tsx:52-56 | increment keeps the length, the ids and every non-quantity field in place; the matching line gains exactly one; all other quantities are unchanged |
| CartStore.AddToCart | src/hooks/cart.tsx:58-67 | after addToCart the ids are the old ids plus the item's id; for a present id the length is unchanged; for a new id the old cart is an untouched prefix followed by the item with quantity 1 |
| CartStore.Decrement | src/hooks/cart.tsx:69-85 | decrement faults exactly when the id is absent, and the fault names that id; for any cart, when the first matching line's quantity is above one, the length and ids are kept, every matching line is lowered by one and every other line is unchanged; otherwise the id is gone and a line is kept exactly when it carries another id |
| CartProperties.RemoveAtUniqueIndex | src/hooks/cart.tsx:81 | with unique ids, filtering out line k's id removes exactly line k and keeps the rest in order |
| CartProperties.ValidWithoutIndex | src/hooks/cart.tsx:80-81 | removing one line from a valid cart leaves a valid cart |
| CartProperties.IncrementKeepsValid | src/hooks/cart.tsx:53-55 | increment keeps ids unique and quantities at least one |
| CartProperties.IncrementAbsentIsIdentity | src/hooks/cart.tsx:54 | incrementing an id that is not in the cart returns the cart unchanged and creates no line |
| CartProperties.AddToCartPresentIsIncrement | src/hooks/cart.tsx:60-61 | adding an item whose id is already present is exactly increment of that id |
| CartProperties.AddToCartKeepsValid | src/hooks/cart.tsx:60-63 | addToCart keeps ids unique and quantities at least one |
| CartProperties.DecrementAboveOne | src/hooks/cart.tsx:74-79 | with unique ids and quantity above one, decrement lowers that line by one at the same index; every other line is unchanged |
| CartProperties.DecrementAtOne | src/hooks/cart.tsx:80-81 | with unique ids and quantity at most one, decrement removes exactly that line; the cart shrinks by one and the other lines keep their order and values |
| CartProperties.DecrementKeepsValid | src/hooks/cart.tsx:71-82 | on a valid cart holding the id, decrement succeeds and keeps ids unique and quantities at least one |
| CartProperties.DecrementUndoesIncrement | src/hooks/cart.tsx:52-85 | on a valid cart holding the id, decrement after increment gives back the original cart |
| CartProperties.IncrementUndoesDecrement | src/hooks/cart.tsx:52-79 | with unique ids and quantity above one, increment after decrement gives back the original cart |
| CartProperties.DecrementUndoesAddToCart | src/hooks/cart.tsx:58-85 | on a valid cart, decrementing an item just added gives back the original cart, whether the item was new or already present |
| CartProperties.AddTwiceIsQuantityTwo | src/hooks/cart.tsx:58-67 | adding a new item twice appends one line with quantity 2, not two lines |
| CartSession.Dispatch | src/hooks/cart.tsx:19-24 | a consumer call faults exactly when it is a decrement of an absent id |
| CartSession.SessionAppend | src/hooks/cart.tsx:52-85 | `Session` is sequential: a session split in two runs the second part on the cart the first part left |
| CartSession.FaultingDecrementIsSkipped | src/hooks/cart.tsx:71-74 | in `Session`, a decrement of an absent id throws before any state update, so the session continues from the unchanged cart |
| CartSession.DispatchKeepsValid | src/hooks/cart.tsx:52-85 | every successful call keeps a valid cart valid |
| CartSession.SessionKeepsValid | src/hooks/cart.tsx:52-85 | any sequence of calls keeps a valid cart valid: no two lines share an id, and no quantity drops below one |
| CartSession.AddAddDecrementDecrement | src/hooks/cart.tsx:58-85 | from an empty cart, add, add, decrement, decrement gives quantity 1, then 2, then 1, then an empty cart |

## Left out

- Loading and saving through AsyncStorage (src/hooks/cart.tsx:31-50): this is asynchronous I/O against an external key-value store. The model keeps only the in-memory cart.
- `JSON.parse` and `JSON.stringify`: these are library serialisation whose code is not part of this model. The persistence round trip is not stated.
- The React machinery (context, `useState`, `useCallback`, `useMemo`, `useEffect`, the Provider component) is framework plumbing with no cart logic.
- `useCart`'s throw outside a `CartProvider` (src/hooks/cart.tsx:95-103): this checks the framework lifetime and has no cart behaviour.
- Races between overlapping write-backs and stale closures: these are about scheduling. The model is sequential.
- `price` is a JavaScript number that nothing computes with, so it is an opaque `real`.
- `quantity` is an unbounded `int`. The loss of precision of a JavaScript number above 2^53 is not modelled.
- The fields of a loaded snapshot are not checked. A cart from storage could break the invariant (for example, duplicate ids or quantity 0). The invariant lemmas therefore assume `Valid`, which holds for the initial empty cart.
