/** The line items a cart holds, and the facts about a whole cart that the
    cart operations are meant to keep: ids are unique and every quantity is
    at least one. */
module Products {

  type Id = string

  /** One line of the cart. `price` is carried along but never computed
      with, so it is kept as an opaque number. */
  datatype Product = Product(id: Id, title: string, image_url: string, price: real, quantity: int)

  /** What a caller hands to `addToCart`: a product without a quantity. */
  datatype Item = Item(id: Id, title: string, image_url: string, price: real)

  /** The cart is an ordered sequence of line items; order is add order. */
  type Cart = seq<Product>

  /** The line an item becomes when it is first added: the item's fields with
      quantity one. */
  function NewLine(item: Item): Product
  {
    Product(item.id, item.title, item.image_url, item.price, 1)
  }

  /** The set of ids present in a cart. */
  function Ids(cart: Cart): set<Id>
  {
    set i | 0 <= i < |cart| :: cart[i].id
  }

  /** The ids of a concatenation are the ids of its parts. */
  lemma IdsAppend(a: Cart, b: Cart)
    ensures Ids(a + b) == Ids(a) + Ids(b)
  {
    var c := a + b;
    forall x | x in Ids(a) + Ids(b)
      ensures x in Ids(c)
    {
      if x in Ids(a) {
        var i :| 0 <= i < |a| && a[i].id == x;
        assert c[i].id == x;
      } else {
        var i :| 0 <= i < |b| && b[i].id == x;
        assert c[|a| + i].id == x;
      }
    }
  }

  /** The ids of a cart are its first line's id and the ids of the rest. */
  lemma IdsCons(cart: Cart)
    requires |cart| > 0
    ensures Ids(cart) == {cart[0].id} + Ids(cart[1..])
  {
  }

  /** No two lines share an id. */
  predicate UniqueIds(cart: Cart)
  {
    forall i, j :: 0 <= i < j < |cart| ==> cart[i].id != cart[j].id
  }

  /** Every line has quantity at least one. */
  predicate Positive(cart: Cart)
  {
    forall i :: 0 <= i < |cart| ==> cart[i].quantity >= 1
  }

  /** The cart invariant: unique ids and positive quantities. */
  predicate Valid(cart: Cart)
  {
    UniqueIds(cart) && Positive(cart)
  }

  /** Array `findIndex` on the id: the first index whose line carries `id`,
      or -1 when no line does. */
  function FindIndex(cart: Cart, id: Id): (r: int)
    ensures -1 <= r < |cart|
    ensures r == -1 <==> id !in Ids(cart)
    ensures r >= 0 ==> cart[r].id == id
    ensures r >= 0 ==> forall j :: 0 <= j < r ==> cart[j].id != id
  {
    if |cart| == 0 then -1
    else if cart[0].id == id then 0
    else
      var k := FindIndex(cart[1..], id);
      IdsCons(cart);
      if k == -1 then -1 else k + 1
  }
}
