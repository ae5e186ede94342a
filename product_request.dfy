/** Record ProductRequest: its constructor defaults a missing category, and IsValid is a stub. */
module ProductRequests {
  import opened Wrappers
  import opened Dates
  import opened Responses

  datatype ProductRequest = ProductRequest(
    name: Option<string>,
    category: string,
    description: Option<string>,
    stock: int,
    productionBatchDate: DateTime)

  /** `new ProductRequest(name, description, stock, prodBatchDate, category)`. */
  function NewProductRequest(name: Option<string>, description: Option<string>, stock: int,
                             prodBatchDate: DateTime, category: Option<string>): (r: ProductRequest)
    ensures category.None? ==> r.category == "None"
    ensures category.Some? ==> r.category == category.value
    ensures r.name == name && r.description == description
    ensures r.stock == stock && r.productionBatchDate == prodBatchDate
  {
    ProductRequest(name, if category.None? then "None" else category.value, description, stock, prodBatchDate)
  }

  /** ProductRequest.IsValid: always null (None). */
  function IsValid(p: ProductRequest): (v: Option<ResponseEnvelope>)
    ensures v == None
  {
    None
  }
}
