/**
 * The cart provider's state: the `products` list, which each callback
 * replaces wholesale, and the value each callback last wrote to storage
 * under the cart key.
 */
module CartHook {
  import opened CartItems
  import CartProperties

  class CartProvider {
    /** The `products` state: the cart lines in insertion order. */
    var products: seq<Product>

    /**
     * The list most recently written to storage under the cart key by one
     * of the callbacks below, or None when none of them has written yet.
     */
    ghost var lastWrite: Option<seq<Product>>

    /** A provider starts with an empty cart and has written nothing. */
    constructor ()
      ensures products == [] && lastWrite == None
    {
      products := [];
      lastWrite := None;
    }

    /**
     * addToCart: the list becomes the list with the item added, and the
     * list as it was before the call is what gets written to storage.
     */
    method AddToCart(item: NewProduct)
      modifies this
      ensures products == CartItems.AddToCart(old(products), item)
      ensures lastWrite == Some(old(products))
      ensures lastWrite != Some(products)
      ensures UniqueIds(old(products)) ==> UniqueIds(products)
    {
      var before := products;
      products := CartItems.AddToCart(products, item);
      lastWrite := Some(before);
      CartProperties.AddToCartChangesList(before, item);
      if UniqueIds(before) {
        CartProperties.AddToCartKeepsIdsUnique(before, item);
      }
    }

    /** increment: the list with one more unit of `id`, which is also what gets written. */
    method Increment(id: string)
      modifies this
      ensures products == CartItems.Increment(old(products), id)
      ensures lastWrite == Some(products)
      ensures UniqueIds(old(products)) ==> UniqueIds(products)
    {
      var newProducts := CartItems.Increment(products, id);
      products := newProducts;
      lastWrite := Some(newProducts);
    }

    /** decrement: the list with one unit less of `id`, which is also what gets written. */
    method Decrement(id: string)
      modifies this
      ensures products == CartItems.Decrement(old(products), id)
      ensures lastWrite == Some(products)
      ensures UniqueIds(old(products)) ==> UniqueIds(products)
    {
      var newProducts := CartItems.Decrement(products, id);
      products := newProducts;
      lastWrite := Some(newProducts);
    }
  }
}
