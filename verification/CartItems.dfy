/**
 * The cart's line-item list and the three list transformations that the
 * cart provider applies to it: adding a product, incrementing and
 * decrementing a product's quantity. Everything here is a value; the state
 * that holds the list lives in module CartHook.
 */
module CartItems {

  datatype Option<T> = None | Some(value: T)

  /** One cart line: a product and how many units of it are in the cart. */
  datatype Product = Product(id: string, title: string, imageUrl: string, price: real, quantity: int)

  /** What addToCart receives: a product without a quantity. */
  datatype NewProduct = NewProduct(id: string, title: string, imageUrl: string, price: real)

  /** The incoming product spread into a line, with the given quantity. */
  function WithQuantity(item: NewProduct, quantity: int): Product
  {
    Product(item.id, item.title, item.imageUrl, item.price, quantity)
  }

  /** Some line of `products` carries `id`. */
  ghost predicate HasId(products: seq<Product>, id: string)
  {
    exists i :: 0 <= i < |products| && products[i].id == id
  }

  /** No two lines share an id. */
  ghost predicate UniqueIds(products: seq<Product>)
  {
    forall i, j :: 0 <= i < j < |products| ==> products[i].id != products[j].id
  }

  /** The line at index `k` is the first one that carries `id`. */
  ghost predicate IsFirstMatch(products: seq<Product>, id: string, k: int)
  {
    0 <= k < |products| && products[k].id == id &&
    forall j :: 0 <= j < k ==> products[j].id != id
  }

  /**
   * Array.prototype.find with the predicate `prod.id === id`: the first line
   * that carries `id`, or nothing when no line does.
   */
  function Find(products: seq<Product>, id: string): (r: Option<Product>)
    ensures r.None? <==> !HasId(products, id)
    ensures r.Some? ==> exists k :: IsFirstMatch(products, id, k) && products[k] == r.value
  {
    if products == [] then None
    else if products[0].id == id then
      assert IsFirstMatch(products, id, 0);
      Some(products[0])
    else
      assert forall k :: IsFirstMatch(products[1..], id, k) ==> IsFirstMatch(products, id, k + 1);
      assert forall i :: 0 < i < |products| ==> products[i] == products[1..][i - 1];
      Find(products[1..], id)
  }

  /**
   * Array.prototype.map with `p => p.id === id ? f(p) : p`: every line that
   * carries `id` is replaced by `f` of it, every other line is kept, and the
   * order is unchanged.
   */
  function MapMatching(products: seq<Product>, id: string, f: Product -> Product): (r: seq<Product>)
    ensures |r| == |products|
    ensures forall i :: 0 <= i < |products| && products[i].id == id ==> r[i] == f(products[i])
    ensures forall i :: 0 <= i < |products| && products[i].id != id ==> r[i] == products[i]
  {
    if products == [] then []
    else
      var head := if products[0].id == id then f(products[0]) else products[0];
      [head] + MapMatching(products[1..], id, f)
  }

  /** The line with its quantity moved by `delta`, every other field kept. */
  function Bump(p: Product, delta: int): Product
  {
    p.(quantity := p.quantity + delta)
  }

  /** increment(id): each line carrying `id` gets one more unit. */
  function Increment(products: seq<Product>, id: string): (r: seq<Product>)
    ensures |r| == |products|
    ensures forall i :: 0 <= i < |products| ==> r[i].id == products[i].id
    ensures forall i :: 0 <= i < |products| && products[i].id == id ==>
      r[i].quantity == products[i].quantity + 1 && r[i] == products[i].(quantity := r[i].quantity)
    ensures forall i :: 0 <= i < |products| && products[i].id != id ==> r[i] == products[i]
  {
    MapMatching(products, id, p => Bump(p, 1))
  }

  /** decrement(id): each line carrying `id` loses one unit; there is no floor. */
  function Decrement(products: seq<Product>, id: string): (r: seq<Product>)
    ensures |r| == |products|
    ensures forall i :: 0 <= i < |products| ==> r[i].id == products[i].id
    ensures forall i :: 0 <= i < |products| && products[i].id == id ==>
      r[i].quantity == products[i].quantity - 1 && r[i] == products[i].(quantity := r[i].quantity)
    ensures forall i :: 0 <= i < |products| && products[i].id != id ==> r[i] == products[i]
  {
    MapMatching(products, id, p => Bump(p, -1))
  }

  /**
   * addToCart(item): when a line with the item's id exists, every line with
   * that id is rebuilt from the incoming fields with the first such line's
   * quantity plus one; otherwise the item is appended with quantity 1.
   */
  function AddToCart(products: seq<Product>, item: NewProduct): (r: seq<Product>)
    ensures !HasId(products, item.id) ==>
      |r| == |products| + 1 && r[..|products|] == products && r[|products|] == WithQuantity(item, 1)
    ensures HasId(products, item.id) ==>
      |r| == |products| &&
      exists k :: IsFirstMatch(products, item.id, k) &&
        forall i :: 0 <= i < |products| && products[i].id == item.id ==>
          r[i] == WithQuantity(item, products[k].quantity + 1)
    ensures forall i :: 0 <= i < |products| && products[i].id != item.id ==> r[i] == products[i]
  {
    match Find(products, item.id)
    case Some(found) =>
      MapMatching(products, item.id, _ => WithQuantity(item, found.quantity + 1))
    case None =>
      products + [WithQuantity(item, 1)]
  }
}
