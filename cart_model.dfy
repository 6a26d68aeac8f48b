/** The values the shopping cart works on, the lookups it makes with `find`, `some`
    and `filter`, and the effect of each of its three mutations as a function of the
    cart before the call and of the answers the inventory service gave.
 */
module CartModel {

  /** A cart entry: only the product id and the quantity matter to the cart logic;
      the display fields of a product (title, price, image) are never inspected. */
  datatype Item = Item(id: int, amount: int)

  datatype Option<T> = None | Some(value: T)

  /** One outcome per message the cart can show; `Ok` and `Ignored` show none. */
  datatype Outcome =
    | Ok           // the mutation happened and was persisted
    | Ignored      // updateProductAmount with a non-positive amount: silently nothing
    | OutOfStock   // "Quantidade solicitada fora de estoque"
    | AddError     // "Erro na adição do produto"
    | RemoveError  // "Erro na remoção do produto"
    | UpdateError  // "Erro na alteração de quantidade do produto"

  /** What a mutation reports and the cart it leaves behind. */
  datatype Effect = Effect(outcome: Outcome, cart: seq<Item>)

  /** `cart.some(product => product.id === id)`: some entry carries the id. */
  predicate HasId(cart: seq<Item>, id: int)
    ensures HasId(cart, id) <==> exists x :: x in cart && x.id == id
  {
    exists i :: 0 <= i < |cart| && cart[i].id == id
  }

  /** No two entries share an id. */
  predicate UniqueIds(cart: seq<Item>) {
    forall i, j :: 0 <= i < j < |cart| ==> cart[i].id != cart[j].id
  }

  /** Every entry holds at least one unit. */
  predicate AllPositive(cart: seq<Item>) {
    forall i :: 0 <= i < |cart| ==> cart[i].amount >= 1
  }

  /** Every entry whose id has had a stock answer holds no more than the last stock
      answered for that id. Entries loaded from the store, never checked against
      stock, are not constrained. */
  predicate WithinStock(cart: seq<Item>, lastStock: map<int, int>) {
    forall i :: 0 <= i < |cart| && cart[i].id in lastStock ==> cart[i].amount <= lastStock[cart[i].id]
  }

  /** The invariant every mutation keeps. */
  predicate WellFormed(cart: seq<Item>) {
    UniqueIds(cart) && AllPositive(cart)
  }

  /** The position of the entry `cart.find(product => product.id === id)` returns:
      the first entry with that id, or none when no entry has it. */
  function FindIndex(cart: seq<Item>, id: int): (r: Option<nat>)
    ensures r.Some? ==> r.value < |cart| && cart[r.value].id == id
    ensures r.Some? ==> forall j :: 0 <= j < r.value ==> cart[j].id != id
    ensures r.None? <==> !HasId(cart, id)
    decreases |cart|
  {
    if cart == [] then None
    else if cart[0].id == id then Some(0)
    else
      match FindIndex(cart[1..], id)
      case None => None
      case Some(k) => Some(k + 1)
  }

  /** The amount of the entry `find` returns, the first one with the id, or 0 when
      there is none. */
  function CurrentAmount(cart: seq<Item>, id: int): (a: int)
    ensures !HasId(cart, id) ==> a == 0
    ensures HasId(cart, id) ==>
      exists i :: 0 <= i < |cart| && cart[i].id == id && cart[i].amount == a
        && (forall j :: 0 <= j < i ==> cart[j].id != id)
  {
    match FindIndex(cart, id)
    case None => 0
    case Some(k) =>
      assert cart[k].id == id;
      cart[k].amount
  }

  /** `cart.filter(product => product.id !== id)` */
  function Without(cart: seq<Item>, id: int): (r: seq<Item>)
    ensures forall x :: x in r <==> x in cart && x.id != id
    ensures |r| <= |cart|
    decreases |cart|
  {
    if cart == [] then []
    else
      assert cart == [cart[0]] + cart[1..];
      (if cart[0].id == id then [] else [cart[0]]) + Without(cart[1..], id)
  }

  /** The cart the initial-state loader starts from: the stored cart when the store
      holds one under the cart key, the empty cart otherwise. */
  function Load(saved: Option<seq<Item>>): (c: seq<Item>)
    ensures saved.None? ==> c == []
    ensures saved.Some? ==> c == saved.value
  {
    match saved
    case None => []
    case Some(s) => s
  }

  /** addProduct(productId). `stock` is the answer of the stock query (None when the
      request failed), `productFound` whether the product query succeeded; the stock
      query is made first, and the product query only for an id not yet in the cart. */
  function AddEffect(cart: seq<Item>, productId: int, stock: Option<int>, productFound: bool): (e: Effect)
    ensures e.outcome == Ok || e.outcome == OutOfStock || e.outcome == AddError
    ensures e.outcome != Ok ==> e.cart == cart
    ensures e.outcome == Ok ==> stock.Some? && CurrentAmount(cart, productId) + 1 <= stock.value
  {
    match stock
    case None => Effect(AddError, cart)
    case Some(amountStock) =>
      if CurrentAmount(cart, productId) + 1 > amountStock then Effect(OutOfStock, cart)
      else
        match FindIndex(cart, productId)
        case Some(k) => Effect(Ok, cart[k := cart[k].(amount := cart[k].amount + 1)])
        case None =>
          if productFound then Effect(Ok, cart + [Item(productId, 1)])
          else Effect(AddError, cart)
  }

  /** removeProduct(productId). */
  function RemoveEffect(cart: seq<Item>, productId: int): (e: Effect)
    ensures e.outcome == Ok || e.outcome == RemoveError
    ensures e.outcome == RemoveError <==> !HasId(cart, productId)
    ensures e.outcome != Ok ==> e.cart == cart
    ensures e.outcome == Ok ==> !HasId(e.cart, productId)
    ensures e.outcome == Ok ==> e.cart == Without(cart, productId)
  {
    if !HasId(cart, productId) then Effect(RemoveError, cart)
    else Effect(Ok, Without(cart, productId))
  }

  /** updateProductAmount({productId, amount}). `stock` is the answer of the stock
      query, which is made only once the amount has passed the guard. */
  function UpdateEffect(cart: seq<Item>, productId: int, amount: int, stock: Option<int>): (e: Effect)
    ensures e.outcome == Ok || e.outcome == Ignored || e.outcome == OutOfStock || e.outcome == UpdateError
    ensures e.outcome == Ignored <==> amount <= 0
    ensures e.outcome != Ok ==> e.cart == cart
    ensures e.outcome == Ok ==> HasId(cart, productId) && stock.Some? && 0 < amount <= stock.value
  {
    if amount <= 0 then Effect(Ignored, cart)
    else
      match stock
      case None => Effect(UpdateError, cart)
      case Some(amountStock) =>
        if amount > amountStock then Effect(OutOfStock, cart)
        else
          match FindIndex(cart, productId)
          case Some(k) => Effect(Ok, cart[k := cart[k].(amount := amount)])
          case None => Effect(UpdateError, cart)
  }
}
