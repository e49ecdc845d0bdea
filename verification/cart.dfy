/** The three state transitions of the cart store, each a pure function from
    the current cart to the next one. `increment` and `decrement` rebuild the
    cart with an array `map` or `filter` over every line whose id matches;
    `addToCart` and `decrement` first look the id up with `findIndex`. */
module CartStore {
  import opened Products

  /** `decrement` on an id that is not in the cart reads `quantity` off the
      `undefined` that `products[-1]` yields, which throws. */
  datatype Fault = UndefinedProduct(id: Id)

  datatype Result<T> = Success(value: T) | Failure(error: Fault)

  /** The `map` step shared by increment and decrement: every line carrying
      `id` has `delta` added to its quantity, every other line is copied. */
  function Adjust(cart: Cart, id: Id, delta: int): (r: Cart)
    ensures |r| == |cart|
    ensures forall i :: 0 <= i < |cart| && cart[i].id != id ==> r[i] == cart[i]
    ensures forall i :: 0 <= i < |cart| && cart[i].id == id ==>
              r[i] == cart[i].(quantity := cart[i].quantity + delta)
  {
    if |cart| == 0 then []
    else
      var head := if cart[0].id == id then cart[0].(quantity := cart[0].quantity + delta) else cart[0];
      [head] + Adjust(cart[1..], id, delta)
  }

  /** The `filter` step of decrement: drop every line carrying `id`, keep
      the others in their order. */
  function Remove(cart: Cart, id: Id): (r: Cart)
    ensures |r| <= |cart|
    ensures Ids(r) == Ids(cart) - {id}
    ensures forall p :: p in r <==> p in cart && p.id != id
    ensures id !in Ids(cart) ==> r == cart
  {
    if |cart| == 0 then []
    else
      var rest := Remove(cart[1..], id);
      IdsCons(cart);
      if cart[0].id == id then rest
      else
        var r := [cart[0]] + rest;
        assert r[1..] == rest;
        IdsCons(r);
        r
  }

  /** `increment(id)`: the line carrying `id` gains one unit, in place;
      nothing else changes, and an absent id creates no line. */
  function Increment(cart: Cart, id: Id): (r: Cart)
    ensures |r| == |cart|
    ensures Ids(r) == Ids(cart)
    ensures forall i :: 0 <= i < |cart| ==>
              r[i].id == cart[i].id && r[i].title == cart[i].title &&
              r[i].image_url == cart[i].image_url && r[i].price == cart[i].price
    ensures forall i :: 0 <= i < |cart| ==>
              r[i].quantity == if cart[i].id == id then cart[i].quantity + 1 else cart[i].quantity
  {
    var r := Adjust(cart, id, 1);
    assert forall i :: 0 <= i < |cart| ==> r[i].id == cart[i].id;
    r
  }

  /** `addToCart(item)`: an item already in the cart is incremented; a new
      one is appended at the end with quantity one. */
  function AddToCart(cart: Cart, item: Item): (r: Cart)
    ensures Ids(r) == Ids(cart) + {item.id}
    ensures item.id in Ids(cart) ==> |r| == |cart|
    ensures item.id !in Ids(cart) ==> |r| == |cart| + 1 && r[..|cart|] == cart && r[|cart|] == NewLine(item)
  {
    if FindIndex(cart, item.id) != -1 then Increment(cart, item.id)
    else
      var r := cart + [NewLine(item)];
      assert Ids([NewLine(item)]) == {item.id} by {
        assert [NewLine(item)][0].id == item.id;
      }
      IdsAppend(cart, [NewLine(item)]);
      r
  }

  /** `decrement(id)`: the quantity of the first line carrying `id` decides
      between lowering every matching line by one and filtering them all
      out. An absent id faults. */
  function Decrement(cart: Cart, id: Id): (r: Result<Cart>)
    ensures r.Failure? <==> id !in Ids(cart)
    ensures r.Failure? ==> r.error == UndefinedProduct(id)
    ensures r.Success? ==> Ids(r.value) <= Ids(cart)
    ensures id in Ids(cart) && cart[FindIndex(cart, id)].quantity > 1 ==>
              && |r.value| == |cart|
              && Ids(r.value) == Ids(cart)
              && (forall i :: 0 <= i < |cart| && cart[i].id != id ==> r.value[i] == cart[i])
              && (forall i :: 0 <= i < |cart| && cart[i].id == id ==>
                    r.value[i] == cart[i].(quantity := cart[i].quantity - 1))
    ensures id in Ids(cart) && cart[FindIndex(cart, id)].quantity <= 1 ==>
              && Ids(r.value) == Ids(cart) - {id}
              && (forall p :: p in r.value <==> p in cart && p.id != id)
  {
    var idx := FindIndex(cart, id);
    if idx == -1 then Failure(UndefinedProduct(id))
    else if cart[idx].quantity > 1 then
      var r := Adjust(cart, id, -1);
      assert forall i :: 0 <= i < |cart| ==> r[i].id == cart[i].id;
      Success(r)
    else Success(Remove(cart, id))
  }
}
