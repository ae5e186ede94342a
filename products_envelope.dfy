/** Record ProductsEnvelope: the product payload, copied field by field from a product. */
module ProductsEnvelopes {
  import opened Wrappers
  import opened Responses
  import opened ProductEntity

  /** The envelope shows every field of `p`, with Id `id`. */
  predicate Shows(e: ProductsEnvelope, id: int, p: Products) {
    && e.id == id && e.name == p.name && e.category == Some(p.category)
    && e.description == p.description && e.stock == p.stock
    && e.productionBatchDate == p.productionBatchDate
    && e.createdAt == p.createdAt && e.updatedAt == p.updatedAt
  }

  /** `new ProductsEnvelope(product)`: all eight fields, Id included. */
  function FromProduct(p: Products): (e: ProductsEnvelope)
    ensures Shows(e, p.id, p)
  {
    ProductsEnvelope(p.id, p.name, Some(p.category), p.description, p.stock,
                     p.productionBatchDate, p.createdAt, p.updatedAt)
  }

  /** `new ProductsEnvelope(productId, product)`: Id is the given one, whatever product.Id is. */
  function FromProductWithId(productId: int, p: Products): (e: ProductsEnvelope)
    ensures Shows(e, productId, p)
  {
    ProductsEnvelope(productId, p.name, Some(p.category), p.description, p.stock,
                     p.productionBatchDate, p.createdAt, p.updatedAt)
  }

  /** The two constructors agree on every field except Id. */
  lemma ConstructorsDifferOnlyInId(productId: int, p: Products)
    ensures FromProductWithId(productId, p) == FromProduct(p).(id := productId)
    ensures FromProductWithId(productId, p) == FromProduct(p) <==> productId == p.id
  {
  }
}
