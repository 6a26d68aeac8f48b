# Shopping-cart mutation logic (RocketShoes cart provider)

This project models the cart logic of the `CartProvider` React hook. The cart is an
ordered sequence of entries `(id, amount)`. A copy of it is kept in the browser's local
store under the key `@RocketShoes:cart`. The cart changes only through three mutations:

- `addProduct(productId)` queries the stock. It raises the amount of an entry already in
  the cart by one. For an id not yet in the cart it queries the product and appends
  `{id, amount: 1}`.
- `removeProduct(productId)` drops the entry with that id.
- `updateProductAmount({productId, amount})` queries the stock and sets the entry's
  amount.

Each mutation ends in one of these outcomes:

- a success, which writes both the in-memory cart and the store;
- a silent no-op;
- one of four user-visible messages, which leave both unchanged.

Files:

- `cart_model.dfy` (module `CartModel`): the values and the lookups (`find`, `some`,
  `filter`). It also holds the initial-state loader and the effect of each mutation as a
  function of the cart before the call and of the inventory service's answers.
- `cart_properties.dfy` (module `CartProperties`): lemmas for the promised behaviour.
  These cover the exact cart each success leaves, the failure each case reports (in the
  order the source makes its checks), and the invariants every mutation keeps. The
  invariants are unique ids, amounts of at least 1, and the touched entry within the
  stock just queried.
- `cart_provider.dfy` (module `CartProvider`): class `CartManager`. Its fields are `cart`
  and `stored`, the value under the store key. The constructor is the initial-state
  loader, and it has one method per mutation. Each method's new state and outcome are
  tied to the effect function. Its object invariant `Valid()` says that reloading from
  the store gives back the in-memory cart.

External answers are method parameters:

- the stock query's answer is an `Option<int>`, where `None` means the request failed;
- the product query is a flag that says whether it succeeded;
- each toast message is one `Outcome` constructor.

The id of an appended entry is `productId`. The source copies the record returned by the
product query, which is assumed to carry the id it was asked for.

Uniqueness and positive amounts are not part of `Valid()`. The loader accepts whatever
the store holds, so they cannot be assumed at start-up. Instead, each method promises
`WellFormed(old(cart)) ==> WellFormed(cart)`.

The stock bound holds across any sequence of mutations. A ghost map `lastStock` holds,
for each product id, the stock answer of its last successful add or update; it starts empty.
`WithinStock(cart, lastStock)` says that every entry whose id is in the map holds no
more than that stock. Each method keeps it, given unique ids for add and update. Entries
loaded from the store and never mutated are not checked against any stock.

## Model

| member | source | states |
|---|---|---|
| `CartModel.FindIndex` | src/hooks/useCart.tsx:37 | gives the position of the first entry with the id, or none exactly when no entry has it |
| `CartModel.HasId` | src/hooks/useCart.tsx:71 | true exactly when some entry of the cart carries the id |
| `CartModel.CurrentAmount` | src/hooks/useCart.tsx:43 | gives 0 when the id is absent, else the amount of the first entry with that id (the one `find` returns) |
| `CartModel.Without` | src/hooks/useCart.tsx:76 | keeps exactly the entries whose id differs, and is never longer than the cart |
| `CartModel.Load` | src/hooks/useCart.tsx:25-33 | gives the stored cart when the key is set, else the empty cart |
| `CartModel.AddEffect` | src/hooks/useCart.tsx:35-67 | has only success, out-of-stock or addition error as outcomes; a failure leaves the cart unchanged; a success implies a stock answer and current amount + 1 within it |
| `CartModel.RemoveEffect` | src/hooks/useCart.tsx:69-82 | reports the removal error exactly when the id is absent, with the cart unchanged; after a success the cart is the filtered cart, with no entry with the id left |
| `CartModel.UpdateEffect` | src/hooks/useCart.tsx:84-115 | is `Ignored` exactly when amount <= 0; a failure leaves the cart unchanged; a success implies the id was present and 0 < amount <= stock |
| `CartProperties.FindIndexUnique` | src/hooks/useCart.tsx:37 | with unique ids, `find` returns the one entry that has the id |
| `CartProperties.FindIndexAfterAmountChange` | src/hooks/useCart.tsx:52 | changing the found entry's amount keeps it the found entry, now holding the new amount |
| `CartProperties.WithoutAbsent` | src/hooks/useCart.tsx:76 | filtering out an absent id leaves the cart as it is |
| `CartProperties.WithoutConcat` | src/hooks/useCart.tsx:76 | filtering distributes over concatenation, so the remaining entries keep their relative order |
| `CartProperties.WithoutAt` | src/hooks/useCart.tsx:76 | with unique ids, filtering out the id at position k gives `cart[..k] + cart[k+1..]` |
| `CartProperties.DropAtWellFormed` | src/hooks/useCart.tsx:76-77 | dropping one entry keeps ids unique and amounts positive |
| `CartProperties.AddNewId` | src/hooks/useCart.tsx:37-61 | for an absent id with stock >= 1, the cart becomes `cart + [Item(id, 1)]` if the product query succeeds, else the addition error is reported and the cart is unchanged |
| `CartProperties.AddExistingId` | src/hooks/useCart.tsx:43-52 | for an id at position k (unique ids), only entry k changes, to amount + 1, when that is within stock; otherwise out-of-stock is reported; the product query is not consulted |
| `CartProperties.AddFailures` | src/hooks/useCart.tsx:40-65 | out-of-stock exactly when a stock answer exists and current + 1 exceeds it; addition error exactly when the stock query failed, or when the id is absent, stock >= 1 and the product query failed |
| `CartProperties.AddPreservesWellFormed` | src/hooks/useCart.tsx:43-63 | keeps ids unique and amounts >= 1; on success the id is present with 1 <= amount <= the queried stock |
| `CartProperties.RemovePresent` | src/hooks/useCart.tsx:71-78 | removing an id at position k (unique ids) succeeds and leaves `cart[..k] + cart[k+1..]` |
| `CartProperties.RemovePreservesWellFormed` | src/hooks/useCart.tsx:76-78 | removal keeps ids unique and amounts >= 1 |
| `CartProperties.UpdateFailures` | src/hooks/useCart.tsx:89-113 | with amount > 0, a failed stock query gives the update error; an amount above stock gives out-of-stock whether or not the id is in the cart; within stock, an absent id gives the update error; the cart is unchanged in each case |
| `CartProperties.UpdatePresent` | src/hooks/useCart.tsx:100-107 | within stock, on an id at position k (unique ids), only entry k changes, to the requested amount |
| `CartProperties.UpdatePreservesWellFormed` | src/hooks/useCart.tsx:95-107 | keeps ids unique and amounts >= 1; on success the found entry holds the requested amount, which is between 1 and the queried stock |
| `CartProperties.AddKeepsWithinStock` | src/hooks/useCart.tsx:40-63 | with unique ids, if every entry is within the last stock answered for its id, it stays so, a success recording the stock just answered for the product id |
| `CartProperties.RemoveKeepsWithinStock` | src/hooks/useCart.tsx:76-78 | removal keeps every entry within the last stock answered for its id |
| `CartProperties.UpdateKeepsWithinStock` | src/hooks/useCart.tsx:92-107 | with unique ids, if every entry is within the last stock answered for its id, it stays so, a success recording the stock just answered for the product id |
| `CartProperties.AddScenarios` | src/hooks/useCart.tsx:35-67 | worked cases: adding to an empty cart with stock 5 gives `[Item(1, 1)]`; adding to `[Item(1, 1)]` with stock 1 reports out-of-stock and leaves the cart unchanged |
| `CartProperties.RemoveScenarios` | src/hooks/useCart.tsx:69-82 | worked cases: removing the only entry gives `[]`; removing from an empty cart reports the removal error |
| `CartProperties.UpdateScenarios` | src/hooks/useCart.tsx:84-115 | worked cases: setting 5 within stock 10 gives `[Item(1, 5)]`; updating an id not in the cart reports the update error and leaves the cart unchanged |
| `CartProvider.CartManager.constructor` | src/hooks/useCart.tsx:25-33 | the cart is the stored cart if there is one, else empty; the store is untouched; reloading gives back the cart |
| `CartProvider.CartManager.AddProduct` | src/hooks/useCart.tsx:35-67 | the outcome and new cart are those of `AddEffect`; the store is set to the new cart exactly on success; a success records the stock answer in `lastStock`; reload consistency, well-formedness and the stock bound are kept |
| `CartProvider.CartManager.RemoveProduct` | src/hooks/useCart.tsx:69-82 | the outcome and new cart are those of `RemoveEffect`; the store is set to the new cart exactly on success; `lastStock` is unchanged; reload consistency, well-formedness and the stock bound are kept |
| `CartProvider.CartManager.UpdateProductAmount` | src/hooks/useCart.tsx:84-115 | the outcome and new cart are those of `UpdateEffect`; the store is set to the new cart exactly on success; a success records the stock answer in `lastStock`; reload consistency, well-formedness and the stock bound are kept |

## Left out

- React wiring (`createContext`, `useState`, `CartContext.Provider`, `useCart`, useCart.tsx:22, 117-130): UI plumbing with no cart logic.
- `toast.error`: replaced by the returned `Outcome`. Displaying the message is a UI side effect.
- The `api.get` HTTP calls (lines 40, 54, 92): their results are parameters. Display fields of products (title, price, image) are never inspected and are not modelled.
- JSON serialisation and `localStorage` (lines 26-29, 63, 78, 107): the store is a field of type `Option<seq<Item>>`, not a string. An empty stored string, which the source treats like an absent key, is not modelled.
- A malformed stored value at start-up (line 29, `JSON.parse` unguarded): foreign-library behaviour. The loader takes the stored sequence if present, else `[]`.
- Store write failures: `localStorage.setItem` is modelled as always succeeding. The source's catch branches for a throwing write (after `setCart` has already been called) are not modelled.
- JavaScript number semantics: a stock answer without a numeric `amount` (`undefined`/`NaN` comparisons are false) and non-integer amounts are not modelled. Ids and amounts are mathematical integers.
- Asynchronous interleaving: each mutation is atomic. The lost-update race between two overlapping calls, which both read the same cart snapshot, is not modelled.
- Object aliasing at lines 52 and 104: the source mutates the found entry in place, and that object is shared with the previous cart array. The model is copy-on-write: it replaces the whole `cart` field, which is the observable effect of `setCart`.
