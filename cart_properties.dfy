/** What the three cart mutations promise: the exact cart each success leaves, the
    outcome each failure reports (in the order the checks are made), and the
    invariants (unique ids, positive amounts within stock) every mutation keeps. */
module CartProperties {
  import opened CartModel

  // ---- lookups ----

  /** With unique ids, `find` returns the one entry that has the id. */
  lemma FindIndexUnique(cart: seq<Item>, id: int, k: nat)
    requires UniqueIds(cart)
    requires k < |cart| && cart[k].id == id
    ensures FindIndex(cart, id) == Some(k)
  {
  }

  /** Changing the amount of the entry `find` returned does not change what `find` returns. */
  lemma FindIndexAfterAmountChange(cart: seq<Item>, id: int, k: nat, a: int)
    requires FindIndex(cart, id) == Some(k)
    ensures FindIndex(cart[k := cart[k].(amount := a)], id) == Some(k)
    ensures CurrentAmount(cart[k := cart[k].(amount := a)], id) == a
  {
    var c := cart[k := cart[k].(amount := a)];
    assert c[k].id == id;
  }

  /** Filtering out an id that no entry has leaves the cart as it is. */
  lemma {:induction false} WithoutAbsent(cart: seq<Item>, id: int)
    requires !HasId(cart, id)
    ensures Without(cart, id) == cart
    decreases |cart|
  {
    if cart != [] {
      WithoutAbsent(cart[1..], id);
      assert cart == [cart[0]] + cart[1..];
    }
  }

  /** Filtering works piecewise: the entries that remain keep their relative order. */
  lemma {:induction false} WithoutConcat(a: seq<Item>, b: seq<Item>, id: int)
    ensures Without(a + b, id) == Without(a, id) + Without(b, id)
    decreases |a|
  {
    if a == [] {
      assert a + b == b;
    } else {
      assert (a + b)[0] == a[0];
      assert (a + b)[1..] == a[1..] + b;
      WithoutConcat(a[1..], b, id);
    }
  }

  /** With unique ids, filtering out the id at position k removes exactly that entry
      and keeps every other entry in its place in the order. */
  lemma {:induction false} WithoutAt(cart: seq<Item>, id: int, k: nat)
    requires UniqueIds(cart)
    requires k < |cart| && cart[k].id == id
    ensures Without(cart, id) == cart[..k] + cart[k + 1..]
    decreases k
  {
    var rest := cart[1..];
    assert UniqueIds(rest) by {
      forall i, j | 0 <= i < j < |rest| ensures rest[i].id != rest[j].id {
        assert rest[i] == cart[i + 1] && rest[j] == cart[j + 1];
      }
    }
    if k == 0 {
      assert !HasId(rest, id) by {
        forall i | 0 <= i < |rest| ensures rest[i].id != id {
          assert rest[i] == cart[i + 1];
        }
      }
      WithoutAbsent(rest, id);
    } else {
      assert cart[0].id != id;
      WithoutAt(rest, id, k - 1);
      assert cart[..k] == [cart[0]] + rest[..k - 1];
      assert cart[k + 1..] == rest[k..];
    }
  }

  /** Dropping the entry at position k keeps ids unique and amounts positive. */
  lemma DropAtWellFormed(cart: seq<Item>, k: nat)
    requires WellFormed(cart)
    requires k < |cart|
    ensures WellFormed(cart[..k] + cart[k + 1..])
  {
    var r := cart[..k] + cart[k + 1..];
    forall i | 0 <= i < |r| ensures r[i] == cart[if i < k then i else i + 1] {
    }
  }

  // ---- addProduct ----

  /** A product id not yet in the cart, with at least one unit in stock: the entry
      {id, amount: 1} is appended at the end when the product query succeeds, and the
      addition error is reported with the cart unchanged when it fails. */
  lemma AddNewId(cart: seq<Item>, productId: int, amountStock: int, productFound: bool)
    requires !HasId(cart, productId)
    requires amountStock >= 1
    ensures AddEffect(cart, productId, Some(amountStock), productFound)
         == if productFound then Effect(Ok, cart + [Item(productId, 1)]) else Effect(AddError, cart)
  {
  }

  /** A product id already in the cart: only that entry changes, its amount going up
      by one, when stock allows it; otherwise out-of-stock is reported, and the product
      query is never consulted. */
  lemma AddExistingId(cart: seq<Item>, productId: int, k: nat, amountStock: int, productFound: bool)
    requires UniqueIds(cart)
    requires k < |cart| && cart[k].id == productId
    ensures AddEffect(cart, productId, Some(amountStock), productFound)
         == if cart[k].amount + 1 <= amountStock
            then Effect(Ok, cart[k := Item(productId, cart[k].amount + 1)])
            else Effect(OutOfStock, cart)
  {
    FindIndexUnique(cart, productId, k);
  }

  /** Which failure addProduct reports. The stock query comes first: out-of-stock is
      reported exactly when the current amount plus one exceeds stock, and the
      addition error exactly when the stock query failed or, for an id not in the
      cart with stock left, the product query failed. */
  lemma AddFailures(cart: seq<Item>, productId: int, stock: Option<int>, productFound: bool)
    ensures AddEffect(cart, productId, stock, productFound).outcome == OutOfStock
        <==> stock.Some? && CurrentAmount(cart, productId) + 1 > stock.value
    ensures AddEffect(cart, productId, stock, productFound).outcome == AddError
        <==> stock.None? || (stock.Some? && !HasId(cart, productId) && 1 <= stock.value && !productFound)
  {
  }

  /** addProduct keeps ids unique and amounts positive, and on success the entry for
      the id is in the cart with an amount between 1 and the stock just queried. */
  lemma AddPreservesWellFormed(cart: seq<Item>, productId: int, stock: Option<int>, productFound: bool)
    requires WellFormed(cart)
    ensures WellFormed(AddEffect(cart, productId, stock, productFound).cart)
    ensures var e := AddEffect(cart, productId, stock, productFound);
      e.outcome == Ok ==> HasId(e.cart, productId) && 1 <= CurrentAmount(e.cart, productId) <= stock.value
  {
    var e := AddEffect(cart, productId, stock, productFound);
    if e.outcome == Ok {
      match FindIndex(cart, productId)
      case Some(k) =>
        FindIndexAfterAmountChange(cart, productId, k, cart[k].amount + 1);
        assert e.cart[k].id == productId;
      case None =>
        var c := cart + [Item(productId, 1)];
        assert e.cart == c;
        forall i, j | 0 <= i < j < |c| ensures c[i].id != c[j].id {
          if j == |cart| { assert c[i] == cart[i]; }
        }
        assert c[|cart|].id == productId;
        assert FindIndex(c, productId) == Some(|cart|) by {
          FindIndexUnique(c, productId, |cart|);
        }
    }
  }

  // ---- removeProduct ----

  /** Removing an id that is in the cart succeeds, and with unique ids it drops
      exactly that entry, leaving the others in their order. */
  lemma RemovePresent(cart: seq<Item>, productId: int, k: nat)
    requires UniqueIds(cart)
    requires k < |cart| && cart[k].id == productId
    ensures RemoveEffect(cart, productId) == Effect(Ok, cart[..k] + cart[k + 1..])
  {
    WithoutAt(cart, productId, k);
  }

  /** removeProduct keeps ids unique and amounts positive. */
  lemma RemovePreservesWellFormed(cart: seq<Item>, productId: int)
    requires WellFormed(cart)
    ensures WellFormed(RemoveEffect(cart, productId).cart)
  {
    match FindIndex(cart, productId)
    case None =>
    case Some(k) =>
      WithoutAt(cart, productId, k);
      DropAtWellFormed(cart, k);
  }

  // ---- updateProductAmount ----

  /** updateProductAmount with a positive amount. The stock check is made before the
      cart is searched: an amount above stock reports out-of-stock even for an id not
      in the cart; within stock, an id not in the cart reports the update error. */
  lemma UpdateFailures(cart: seq<Item>, productId: int, amount: int, stock: Option<int>)
    requires amount > 0
    ensures stock.None? ==> UpdateEffect(cart, productId, amount, stock) == Effect(UpdateError, cart)
    ensures stock.Some? && amount > stock.value
        ==> UpdateEffect(cart, productId, amount, stock) == Effect(OutOfStock, cart)
    ensures stock.Some? && amount <= stock.value && !HasId(cart, productId)
        ==> UpdateEffect(cart, productId, amount, stock) == Effect(UpdateError, cart)
  {
  }

  /** updateProductAmount within stock on an id in the cart sets that one entry's
      amount and leaves every other entry as it was. */
  lemma UpdatePresent(cart: seq<Item>, productId: int, k: nat, amount: int, amountStock: int)
    requires UniqueIds(cart)
    requires k < |cart| && cart[k].id == productId
    requires 0 < amount <= amountStock
    ensures UpdateEffect(cart, productId, amount, Some(amountStock))
         == Effect(Ok, cart[k := Item(productId, amount)])
  {
    FindIndexUnique(cart, productId, k);
  }

  /** updateProductAmount keeps ids unique and amounts positive, and on success the
      entry for the id holds the requested amount, which is within stock. */
  lemma UpdatePreservesWellFormed(cart: seq<Item>, productId: int, amount: int, stock: Option<int>)
    requires WellFormed(cart)
    ensures WellFormed(UpdateEffect(cart, productId, amount, stock).cart)
    ensures var e := UpdateEffect(cart, productId, amount, stock);
      e.outcome == Ok ==> CurrentAmount(e.cart, productId) == amount && 1 <= amount <= stock.value
  {
    var e := UpdateEffect(cart, productId, amount, stock);
    if e.outcome == Ok {
      var k := FindIndex(cart, productId).value;
      FindIndexAfterAmountChange(cart, productId, k, amount);
    }
  }

  // ---- stock bound over any sequence of mutations ----

  /** addProduct keeps every entry within the last stock answered for its id, where a
      success records the stock it was just given for the product id. */
  lemma AddKeepsWithinStock(cart: seq<Item>, lastStock: map<int, int>, productId: int,
                            stock: Option<int>, productFound: bool)
    requires UniqueIds(cart) && WithinStock(cart, lastStock)
    ensures var e := AddEffect(cart, productId, stock, productFound);
      WithinStock(e.cart, if e.outcome == Ok then lastStock[productId := stock.value] else lastStock)
  {
    var e := AddEffect(cart, productId, stock, productFound);
    if e.outcome == Ok {
      var last := lastStock[productId := stock.value];
      match FindIndex(cart, productId)
      case Some(k) =>
        forall i | 0 <= i < |e.cart| && e.cart[i].id in last
          ensures e.cart[i].amount <= last[e.cart[i].id]
        {
          if i != k { assert cart[i].id != cart[k].id by { assert i < k || k < i; } }
        }
      case None =>
        forall i | 0 <= i < |e.cart| && e.cart[i].id in last
          ensures e.cart[i].amount <= last[e.cart[i].id]
        {
          if i < |cart| { assert e.cart[i] == cart[i]; }
        }
    }
  }

  /** removeProduct keeps every entry within the last stock answered for its id. */
  lemma RemoveKeepsWithinStock(cart: seq<Item>, lastStock: map<int, int>, productId: int)
    requires WithinStock(cart, lastStock)
    ensures WithinStock(RemoveEffect(cart, productId).cart, lastStock)
  {
    var r := RemoveEffect(cart, productId).cart;
    forall i | 0 <= i < |r| && r[i].id in lastStock ensures r[i].amount <= lastStock[r[i].id] {
      assert r[i] in cart;
    }
  }

  /** updateProductAmount keeps every entry within the last stock answered for its id,
      where a success records the stock it was just given for the product id. */
  lemma UpdateKeepsWithinStock(cart: seq<Item>, lastStock: map<int, int>, productId: int,
                               amount: int, stock: Option<int>)
    requires UniqueIds(cart) && WithinStock(cart, lastStock)
    ensures var e := UpdateEffect(cart, productId, amount, stock);
      WithinStock(e.cart, if e.outcome == Ok then lastStock[productId := stock.value] else lastStock)
  {
    var e := UpdateEffect(cart, productId, amount, stock);
    if e.outcome == Ok {
      var last := lastStock[productId := stock.value];
      var k := FindIndex(cart, productId).value;
      forall i | 0 <= i < |e.cart| && e.cart[i].id in last
        ensures e.cart[i].amount <= last[e.cart[i].id]
      {
        if i != k { assert cart[i].id != cart[k].id by { assert i < k || k < i; } }
      }
    }
  }

  // ---- worked cases ----

  /** Worked cases of addProduct: add to an empty cart with stock 5, and add beyond a
      stock of 1. */
  lemma AddScenarios()
    ensures AddEffect([], 1, Some(5), true) == Effect(Ok, [Item(1, 1)])
    ensures AddEffect([Item(1, 1)], 1, Some(1), true) == Effect(OutOfStock, [Item(1, 1)])
  {
    AddNewId([], 1, 5, true);
    AddExistingId([Item(1, 1)], 1, 0, 1, true);
  }

  /** Worked cases of removeProduct: remove the only entry, and remove from an empty cart. */
  lemma RemoveScenarios()
    ensures RemoveEffect([Item(2, 3)], 2) == Effect(Ok, [])
    ensures RemoveEffect([], 99) == Effect(RemoveError, [])
  {
    RemovePresent([Item(2, 3)], 2, 0);
  }

  /** Worked cases of updateProductAmount: update within stock, and update an id not in
      the cart. */
  lemma UpdateScenarios()
    ensures UpdateEffect([Item(1, 2)], 1, 5, Some(10)) == Effect(Ok, [Item(1, 5)])
    ensures UpdateEffect([Item(1, 2)], 7, 1, Some(10)) == Effect(UpdateError, [Item(1, 2)])
  {
    UpdatePresent([Item(1, 2)], 1, 0, 5, 10);
    assert !HasId([Item(1, 2)], 7);
  }
}
