/**
 * The in-memory stand-in for the document database: one sequence per
 * collection, in insertion order. Lookups are first-match, as
 * `findById`/`findOne` return one document.
 */
module Stores {
  import opened Products
  import opened Users
  import opened Discounts
  import opened Carts
  import opened Orders

  datatype Store = Store(
    products: seq<Product>,
    users: seq<User>,
    discounts: seq<Discount>,
    carts: seq<Cart>,
    orders: seq<Order>)
}
