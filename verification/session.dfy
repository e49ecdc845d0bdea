/** A session against the store: the consumer's calls applied one after
    another to the current cart. A decrement that faults changes nothing,
    since the callback throws before it schedules a state update. */
module CartSession {
  import opened Products
  import opened CartStore
  import opened CartProperties

  /** One call through the consumer interface. */
  datatype Action = AddToCartCall(item: Item) | IncrementCall(id: Id) | DecrementCall(id: Id)

  /** The cart after one call, or the fault the call raised. */
  function Dispatch(cart: Cart, action: Action): (r: Result<Cart>)
    ensures r.Failure? <==> action.DecrementCall? && action.id !in Ids(cart)
  {
    match action
    case AddToCartCall(item) => Success(AddToCart(cart, item))
    case IncrementCall(id) => Success(Increment(cart, id))
    case DecrementCall(id) => Decrement(cart, id)
  }

  /** The cart after a whole sequence of calls, each applied to the cart the
      previous one left; a faulting call leaves the cart as it was. */
  function Session(cart: Cart, actions: seq<Action>): Cart
    decreases |actions|
  {
    if |actions| == 0 then cart
    else
      var next := match Dispatch(cart, actions[0])
        case Success(c) => c
        case Failure(_) => cart;
      Session(next, actions[1..])
  }

  /** A session split in two runs the second part on the cart the first
      part left. */
  lemma {:induction false} SessionAppend(cart: Cart, a: seq<Action>, b: seq<Action>)
    ensures Session(cart, a + b) == Session(Session(cart, a), b)
    decreases |a|
  {
    if |a| > 0 {
      assert (a + b)[0] == a[0];
      assert (a + b)[1..] == a[1..] + b;
      var next := match Dispatch(cart, a[0])
        case Success(c) => c
        case Failure(_) => cart;
      SessionAppend(next, a[1..], b);
    } else {
      assert a + b == b;
    }
  }

  /** A decrement of an absent id throws before any state update, so the
      session carries on from the cart as it was. */
  lemma FaultingDecrementIsSkipped(cart: Cart, id: Id, rest: seq<Action>)
    requires id !in Ids(cart)
    ensures Session(cart, [DecrementCall(id)] + rest) == Session(cart, rest)
  {
    assert ([DecrementCall(id)] + rest)[1..] == rest;
  }

  /** Every call keeps the cart invariant. */
  lemma DispatchKeepsValid(cart: Cart, action: Action)
    requires Valid(cart)
    ensures Dispatch(cart, action).Success? ==> Valid(Dispatch(cart, action).value)
  {
    match action
    case AddToCartCall(item) => AddToCartKeepsValid(cart, item);
    case IncrementCall(id) => IncrementKeepsValid(cart, id);
    case DecrementCall(id) =>
      if id in Ids(cart) {
        DecrementKeepsValid(cart, id);
      }
  }

  /** However many calls a session makes, in whatever order, a cart that
      starts valid (the empty cart does) stays valid: no two lines share an
      id and no line drops below quantity one. */
  lemma {:induction false} SessionKeepsValid(cart: Cart, actions: seq<Action>)
    requires Valid(cart)
    ensures Valid(Session(cart, actions))
    decreases |actions|
  {
    if |actions| > 0 {
      DispatchKeepsValid(cart, actions[0]);
      var next := match Dispatch(cart, actions[0])
        case Success(c) => c
        case Failure(_) => cart;
      SessionKeepsValid(next, actions[1..]);
    }
  }

  /** The walk-through of an empty cart: add an item, add it again, then
      decrement twice, ending with an empty cart. */
  lemma {:induction false} AddAddDecrementDecrement(item: Item)
    ensures AddToCart([], item) == [NewLine(item)]
    ensures AddToCart([NewLine(item)], item) == [NewLine(item).(quantity := 2)]
    ensures Decrement([NewLine(item).(quantity := 2)], item.id) == Success([NewLine(item)])
    ensures Decrement([NewLine(item)], item.id) == Success([])
  {
    AddTwiceIsQuantityTwo([], item);
    assert [] + [NewLine(item)] == [NewLine(item)];
    var two := [NewLine(item).(quantity := 2)];
    DecrementAboveOne(two, 0);
    assert two[0 := two[0].(quantity := two[0].quantity - 1)] == [NewLine(item)];
    DecrementAtOne([NewLine(item)], 0);
  }
}
