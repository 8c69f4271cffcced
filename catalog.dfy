/** The catalog entries the view callback reads. */
module Catalog {

  /** A product of a category; the callback reads only its name. */
  datatype Product = Product(name: string)

  /** The names of `products`, in catalog order. */
  function Names(products: seq<Product>): seq<string>
  {
    seq(|products|, i requires 0 <= i < |products| => products[i].name)
  }
}
