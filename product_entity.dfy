/** Record Products, the row of the Products table, and its two constructors from a request. */
module ProductEntity {
  import opened Wrappers
  import opened Dates
  import opened ProductRequests

  datatype Products = Products(
    id: int,
    name: Option<string>,
    category: string,
    description: Option<string>,
    stock: int,
    productionBatchDate: DateTime,
    createdAt: DateTime,
    updatedAt: DateTime)

  /** The business fields of `p` are those of the request. */
  predicate CopiesRequest(p: Products, r: ProductRequest) {
    && p.name == r.name && p.category == r.category && p.description == r.description
    && p.stock == r.stock && p.productionBatchDate == r.productionBatchDate
  }

  /** `new Products(request)`, for an insert: Id keeps its default 0; both timestamps are `now`. */
  function NewProduct(request: ProductRequest, now: DateTime): (p: Products)
    ensures p.id == 0 && CopiesRequest(p, request)
    ensures p.createdAt == now && p.updatedAt == now
  {
    Products(0, request.name, request.category, request.description, request.stock,
             request.productionBatchDate, now, now)
  }

  /** `new Products(productId, request)`, for an update: Id is the given one. */
  function ProductWithId(productId: int, request: ProductRequest, now: DateTime): (p: Products)
    ensures p.id == productId && CopiesRequest(p, request)
    ensures p.createdAt == now && p.updatedAt == now
  {
    Products(productId, request.name, request.category, request.description, request.stock,
             request.productionBatchDate, now, now)
  }

  /** The two constructors agree on every copied field and differ only in Id. */
  lemma ConstructorsDifferOnlyInId(productId: int, request: ProductRequest, now: DateTime)
    ensures ProductWithId(productId, request, now) == NewProduct(request, now).(id := productId)
    ensures ProductWithId(productId, request, now) == NewProduct(request, now) <==> productId == 0
  {
  }
}
