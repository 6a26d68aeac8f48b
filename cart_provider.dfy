/** The cart provider: the in-memory cart and its persisted copy under the single
    cart key, changed only by the three mutations. The inventory service's answers
    are parameters; the message a mutation shows is its returned outcome. */
module CartProvider {
  import opened CartModel
  import CartProperties

  class CartManager {
    /** The in-memory cart. */
    var cart: seq<Item>
    /** The value under the cart key of the local store; None when the key is unset. */
    var stored: Option<seq<Item>>
    /** For each product id, the stock answer of the last successful add or update of it. */
    ghost var lastStock: map<int, int>

    /** Reloading from the store gives back the in-memory cart. */
    ghost predicate Valid()
      reads this
    {
      Load(stored) == cart
    }

    /** The initial-state loader: the stored cart when there is one, else the empty cart. */
    constructor (saved: Option<seq<Item>>)
      ensures Valid()
      ensures stored == saved
      ensures cart == Load(saved)
      ensures lastStock == map[]
    {
      stored := saved;
      lastStock := map[];
      match saved {
        case Some(s) => cart := s;
        case None => cart := [];
      }
    }

    /** addProduct(productId), given the answer of the stock query (None when it
        failed) and whether the product query succeeded. */
    method AddProduct(productId: int, stock: Option<int>, productFound: bool) returns (outcome: Outcome)
      requires Valid()
      modifies this
      ensures Valid()
      ensures Effect(outcome, cart) == AddEffect(old(cart), productId, stock, productFound)
      ensures stored == if outcome == Ok then Some(cart) else old(stored)
      ensures lastStock == if outcome == Ok then old(lastStock)[productId := stock.value] else old(lastStock)
      ensures WellFormed(old(cart)) ==> WellFormed(cart)
      ensures UniqueIds(old(cart)) && WithinStock(old(cart), old(lastStock)) ==> WithinStock(cart, lastStock)
    {
      if WellFormed(cart) {
        CartProperties.AddPreservesWellFormed(cart, productId, stock, productFound);
      }
      if UniqueIds(cart) && WithinStock(cart, lastStock) {
        CartProperties.AddKeepsWithinStock(cart, lastStock, productId, stock, productFound);
      }
      var productInCart := FindIndex(cart, productId);
      var updateCart := cart;
      if stock.None? {
        return AddError;
      }
      var amountStock := stock.value;
      var currentAmount := if productInCart.Some? then cart[productInCart.value].amount else 0;
      var updatedAmount := currentAmount + 1;
      if updatedAmount > amountStock {
        return OutOfStock;
      }
      if productInCart.Some? {
        var k := productInCart.value;
        updateCart := updateCart[k := updateCart[k].(amount := updatedAmount)];
      } else {
        if !productFound {
          return AddError;
        }
        updateCart := updateCart + [Item(productId, 1)];
      }
      cart := updateCart;
      stored := Some(updateCart);
      lastStock := lastStock[productId := amountStock];
      outcome := Ok;
    }

    /** removeProduct(productId). */
    method RemoveProduct(productId: int) returns (outcome: Outcome)
      requires Valid()
      modifies this
      ensures Valid()
      ensures Effect(outcome, cart) == RemoveEffect(old(cart), productId)
      ensures stored == if outcome == Ok then Some(cart) else old(stored)
      ensures lastStock == old(lastStock)
      ensures WellFormed(old(cart)) ==> WellFormed(cart)
      ensures WithinStock(old(cart), old(lastStock)) ==> WithinStock(cart, lastStock)
    {
      if WellFormed(cart) {
        CartProperties.RemovePreservesWellFormed(cart, productId);
      }
      if WithinStock(cart, lastStock) {
        CartProperties.RemoveKeepsWithinStock(cart, lastStock, productId);
      }
      var existProduct := HasId(cart, productId);
      if !existProduct {
        return RemoveError;
      }
      var updateProductCart := Without(cart, productId);
      cart := updateProductCart;
      stored := Some(updateProductCart);
      outcome := Ok;
    }

    /** updateProductAmount({productId, amount}), given the answer of the stock query. */
    method UpdateProductAmount(productId: int, amount: int, stock: Option<int>) returns (outcome: Outcome)
      requires Valid()
      modifies this
      ensures Valid()
      ensures Effect(outcome, cart) == UpdateEffect(old(cart), productId, amount, stock)
      ensures stored == if outcome == Ok then Some(cart) else old(stored)
      ensures lastStock == if outcome == Ok then old(lastStock)[productId := stock.value] else old(lastStock)
      ensures WellFormed(old(cart)) ==> WellFormed(cart)
      ensures UniqueIds(old(cart)) && WithinStock(old(cart), old(lastStock)) ==> WithinStock(cart, lastStock)
    {
      if WellFormed(cart) {
        CartProperties.UpdatePreservesWellFormed(cart, productId, amount, stock);
      }
      if UniqueIds(cart) && WithinStock(cart, lastStock) {
        CartProperties.UpdateKeepsWithinStock(cart, lastStock, productId, amount, stock);
      }
      if amount <= 0 {
        return Ignored;
      }
      if stock.None? {
        return UpdateError;
      }
      var amountStock := stock.value;
      if amount > amountStock {
        return OutOfStock;
      }
      var updateCart := cart;
      var isInCart := FindIndex(updateCart, productId);
      if isInCart.Some? {
        var k := isInCart.value;
        updateCart := updateCart[k := updateCart[k].(amount := amount)];
        cart := updateCart;
        stored := Some(updateCart);
        lastStock := lastStock[productId := amountStock];
        outcome := Ok;
      } else {
        outcome := UpdateError;
      }
    }
  }
}
