/** What the cart operations promise beyond a single call's contract: the
    cart invariant is kept, decrement behaves as an in-place update or as a
    single removal depending on the quantity, and decrement undoes both
    increment and addToCart. */
module CartProperties {
  import opened Products
  import opened CartStore

  /** The filter on a single line keeps it exactly when its id differs. */
  lemma RemoveSingle(p: Product, id: Id)
    ensures Remove([p], id) == if p.id == id then [] else [p]
  {
  }

  /** The filter distributes over concatenation: each part is filtered on
      its own and the kept lines stay in their original order. */
  lemma {:induction false} RemoveAppend(a: Cart, b: Cart, id: Id)
    ensures Remove(a + b, id) == Remove(a, id) + Remove(b, id)
    decreases |a|
  {
    if |a| > 0 {
      assert (a + b)[0] == a[0];
      assert (a + b)[1..] == a[1..] + b;
      RemoveAppend(a[1..], b, id);
    } else {
      assert a + b == b;
    }
  }

  /** Filtering the id of line `k` out of a cart with unique ids removes
      exactly that line and keeps the others in order. */
  lemma RemoveAtUniqueIndex(cart: Cart, k: int)
    requires UniqueIds(cart)
    requires 0 <= k < |cart|
    ensures Remove(cart, cart[k].id) == cart[..k] + cart[k + 1..]
  {
    var id := cart[k].id;
    var before, tail := cart[..k], cart[k..];
    OnlyLineCarriesId(cart, k);
    calc {
      Remove(cart, id);
      { assert cart == before + tail; }
      Remove(before + tail, id);
      { RemoveAppend(before, tail, id); }
      Remove(before, id) + Remove(tail, id);
      { RemoveLeadingMatch(tail, id); }
      before + cart[k + 1..];
    }
  }

  /** A cart whose first line is the only one carrying `id` loses exactly
      that line to the filter. */
  lemma RemoveLeadingMatch(cart: Cart, id: Id)
    requires |cart| > 0 && cart[0].id == id
    requires id !in Ids(cart[1..])
    ensures Remove(cart, id) == cart[1..]
  {
  }

  /** With unique ids, no line before or after line k carries its id. */
  lemma OnlyLineCarriesId(cart: Cart, k: int)
    requires UniqueIds(cart)
    requires 0 <= k < |cart|
    ensures cart[k].id !in Ids(cart[..k])
    ensures cart[k].id !in Ids(cart[k + 1..])
    ensures cart[k..][1..] == cart[k + 1..]
  {
    var before, after := cart[..k], cart[k + 1..];
    assert forall i :: 0 <= i < |before| ==> before[i] == cart[i];
    assert forall i :: 0 <= i < |after| ==> after[i] == cart[k + 1 + i];
  }

  /** Dropping one line keeps the ids unique and the quantities positive. */
  lemma ValidWithoutIndex(cart: Cart, k: int)
    requires Valid(cart)
    requires 0 <= k < |cart|
    ensures Valid(cart[..k] + cart[k + 1..])
  {
  }

  /** Increment keeps the cart invariant. */
  lemma IncrementKeepsValid(cart: Cart, id: Id)
    requires Valid(cart)
    ensures Valid(Increment(cart, id))
  {
  }

  /** Increment of an id the cart does not hold returns the cart unchanged. */
  lemma IncrementAbsentIsIdentity(cart: Cart, id: Id)
    requires id !in Ids(cart)
    ensures Increment(cart, id) == cart
  {
  }

  /** Adding an item already in the cart is the same as incrementing it. */
  lemma AddToCartPresentIsIncrement(cart: Cart, item: Item)
    requires item.id in Ids(cart)
    ensures AddToCart(cart, item) == Increment(cart, item.id)
  {
  }

  /** AddToCart keeps the cart invariant. */
  lemma AddToCartKeepsValid(cart: Cart, item: Item)
    requires Valid(cart)
    ensures Valid(AddToCart(cart, item))
  {
  }

  /** On a line above one, decrement lowers that line by one in place and
      leaves every other line as it was. */
  lemma DecrementAboveOne(cart: Cart, k: int)
    requires UniqueIds(cart)
    requires 0 <= k < |cart|
    requires cart[k].quantity > 1
    ensures Decrement(cart, cart[k].id) == Success(cart[k := cart[k].(quantity := cart[k].quantity - 1)])
  {
    var id := cart[k].id;
    assert FindIndex(cart, id) == k;
    var r := Adjust(cart, id, -1);
    var expected := cart[k := cart[k].(quantity := cart[k].quantity - 1)];
    assert forall i :: 0 <= i < |cart| ==> r[i] == expected[i] by {
      forall i | 0 <= i < |cart|
        ensures r[i] == expected[i]
      {
        if i != k {
          assert cart[i].id != id;
        }
      }
    }
    assert r == expected;
  }

  /** On a line at one (or below), decrement removes exactly that line: the
      cart is one shorter and the other lines keep their order and values. */
  lemma DecrementAtOne(cart: Cart, k: int)
    requires UniqueIds(cart)
    requires 0 <= k < |cart|
    requires cart[k].quantity <= 1
    ensures Decrement(cart, cart[k].id) == Success(cart[..k] + cart[k + 1..])
    ensures |Decrement(cart, cart[k].id).value| == |cart| - 1
  {
    assert FindIndex(cart, cart[k].id) == k;
    RemoveAtUniqueIndex(cart, k);
  }

  /** Decrement keeps the cart invariant whenever it succeeds. */
  lemma DecrementKeepsValid(cart: Cart, id: Id)
    requires Valid(cart)
    requires id in Ids(cart)
    ensures Decrement(cart, id).Success?
    ensures Valid(Decrement(cart, id).value)
  {
    var k := FindIndex(cart, id);
    if cart[k].quantity > 1 {
      DecrementAboveOne(cart, k);
    } else {
      DecrementAtOne(cart, k);
      ValidWithoutIndex(cart, k);
    }
  }

  /** Decrement undoes increment on an id the cart holds. */
  lemma DecrementUndoesIncrement(cart: Cart, id: Id)
    requires Valid(cart)
    requires id in Ids(cart)
    ensures Decrement(Increment(cart, id), id) == Success(cart)
  {
    var up := Increment(cart, id);
    var k := FindIndex(up, id);
    assert up[k].quantity > 1;
    var down := Adjust(up, id, -1);
    assert forall i :: 0 <= i < |cart| ==> down[i] == cart[i];
    assert down == cart;
    assert Decrement(up, id) == Success(down);
  }

  /** Increment undoes a decrement that did not remove the line. */
  lemma IncrementUndoesDecrement(cart: Cart, k: int)
    requires UniqueIds(cart)
    requires 0 <= k < |cart|
    requires cart[k].quantity > 1
    ensures Increment(Decrement(cart, cart[k].id).value, cart[k].id) == cart
  {
  }

  /** Decrement undoes addToCart: whether the item was new or already
      present, adding it and then decrementing it gives back the cart. */
  lemma DecrementUndoesAddToCart(cart: Cart, item: Item)
    requires Valid(cart)
    ensures Decrement(AddToCart(cart, item), item.id) == Success(cart)
  {
    if item.id in Ids(cart) {
      DecrementUndoesIncrement(cart, item.id);
    } else {
      var added := AddToCart(cart, item);
      AddToCartKeepsValid(cart, item);
      DecrementAtOne(added, |cart|);
      assert added[..|cart|] + added[|cart| + 1..] == cart;
    }
  }

  /** Adding the same new item twice yields one line with quantity two at
      the end, not two lines. */
  lemma AddTwiceIsQuantityTwo(cart: Cart, item: Item)
    requires item.id !in Ids(cart)
    ensures AddToCart(AddToCart(cart, item), item) == cart + [NewLine(item).(quantity := 2)]
  {
  }
}
