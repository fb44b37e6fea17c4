/**
 * Properties of the cart's list transformations that relate several calls
 * or rely on the ids being unique.
 */
module CartProperties {
  import opened CartItems

  /** Adding a product keeps the ids unique. */
  lemma AddToCartKeepsIdsUnique(products: seq<Product>, item: NewProduct)
    requires UniqueIds(products)
    ensures UniqueIds(AddToCart(products, item))
  {
    var r := AddToCart(products, item);
    if HasId(products, item.id) {
      forall i, j | 0 <= i < j < |r| ensures r[i].id != r[j].id {
        assert r[i].id == products[i].id && r[j].id == products[j].id;
      }
    } else {
      forall i, j | 0 <= i < j < |r| ensures r[i].id != r[j].id {
        if j == |products| {
          assert r[i] == r[..|products|][i] == products[i];
        } else {
          assert r[..|products|][i] == products[i] && r[..|products|][j] == products[j];
        }
      }
    }
  }

  /** Incrementing keeps the ids unique. */
  lemma IncrementKeepsIdsUnique(products: seq<Product>, id: string)
    requires UniqueIds(products)
    ensures UniqueIds(Increment(products, id))
  {
  }

  /** Decrementing keeps the ids unique. */
  lemma DecrementKeepsIdsUnique(products: seq<Product>, id: string)
    requires UniqueIds(products)
    ensures UniqueIds(Decrement(products, id))
  {
  }

  /**
   * In a list with unique ids, adding a product that is already present
   * rebuilds exactly that line from the incoming fields with one more unit
   * and leaves every other line as it was.
   */
  lemma AddToCartExisting(products: seq<Product>, item: NewProduct, k: nat)
    requires UniqueIds(products)
    requires k < |products| && products[k].id == item.id
    ensures |AddToCart(products, item)| == |products|
    ensures AddToCart(products, item)[k] == WithQuantity(item, products[k].quantity + 1)
    ensures forall i :: 0 <= i < |products| && i != k ==> AddToCart(products, item)[i] == products[i]
  {
    assert HasId(products, item.id);
    var r := AddToCart(products, item);
    var m :| IsFirstMatch(products, item.id, m) &&
      forall i :: 0 <= i < |products| && products[i].id == item.id ==>
        r[i] == WithQuantity(item, products[m].quantity + 1);
    assert m == k;
  }

  /** Incrementing an id that no line carries leaves the list as it was. */
  lemma IncrementAbsentIsIdentity(products: seq<Product>, id: string)
    requires !HasId(products, id)
    ensures Increment(products, id) == products
  {
  }

  /** Decrementing an id that no line carries leaves the list as it was. */
  lemma DecrementAbsentIsIdentity(products: seq<Product>, id: string)
    requires !HasId(products, id)
    ensures Decrement(products, id) == products
  {
  }

  /** increment followed by decrement of the same id restores the list. */
  lemma DecrementUndoesIncrement(products: seq<Product>, id: string)
    ensures Decrement(Increment(products, id), id) == products
  {
  }

  /** decrement followed by increment of the same id restores the list. */
  lemma IncrementUndoesDecrement(products: seq<Product>, id: string)
    ensures Increment(Decrement(products, id), id) == products
  {
  }

  /**
   * addToCart always changes the list. The snapshot it writes to storage,
   * the list as it was before the call, therefore never equals the list the
   * cart holds after the call.
   */
  lemma AddToCartChangesList(products: seq<Product>, item: NewProduct)
    ensures AddToCart(products, item) != products
  {
    var r := AddToCart(products, item);
    if HasId(products, item.id) {
      var k :| IsFirstMatch(products, item.id, k) &&
        forall i :: 0 <= i < |products| && products[i].id == item.id ==>
          r[i] == WithQuantity(item, products[k].quantity + 1);
      assert r[k].quantity != products[k].quantity;
    } else {
      assert |r| != |products|;
    }
  }

  /** Adding two products with distinct new ids appends both, in order, one unit each. */
  lemma AddTwoDistinct(products: seq<Product>, a: NewProduct, b: NewProduct)
    requires !HasId(products, a.id) && !HasId(products, b.id) && a.id != b.id
    ensures AddToCart(AddToCart(products, a), b) == products + [WithQuantity(a, 1), WithQuantity(b, 1)]
  {
    var once := AddToCart(products, a);
    assert once == products + [WithQuantity(a, 1)];
    assert !HasId(once, b.id) by {
      forall i | 0 <= i < |once| ensures once[i].id != b.id {
        if i < |products| { assert once[i] == once[..|products|][i]; }
      }
    }
  }

  /**
   * Adding a new product and then a product with the same id leaves one
   * line for that id, with two units and the second product's fields.
   */
  lemma AddSameIdTwice(products: seq<Product>, a: NewProduct, b: NewProduct)
    requires !HasId(products, a.id) && b.id == a.id
    ensures AddToCart(AddToCart(products, a), b) == products + [WithQuantity(b, 2)]
  {
    var once := AddToCart(products, a);
    assert once == products + [WithQuantity(a, 1)];
    var twice := AddToCart(once, b);
    assert HasId(once, b.id) by { assert once[|products|].id == b.id; }
    var k :| IsFirstMatch(once, b.id, k) &&
      forall i :: 0 <= i < |once| && once[i].id == b.id ==>
        twice[i] == WithQuantity(b, once[k].quantity + 1);
    assert k == |products|;
    assert twice[|products|] == WithQuantity(b, 2);
  }

  /**
   * The walk-through of an empty cart: add p1, add p2, increment p1,
   * decrement p2 gives p1 with two units and p2 with zero.
   */
  lemma Walkthrough(p1: NewProduct, p2: NewProduct)
    requires p1.id != p2.id
    ensures
      var c1 := AddToCart([], p1);
      var c2 := AddToCart(c1, p2);
      var c3 := Increment(c2, p1.id);
      var c4 := Decrement(c3, p2.id);
      c4 == [WithQuantity(p1, 2), WithQuantity(p2, 0)]
  {
    AddTwoDistinct([], p1, p2);
  }
}
