/**
  * An inventory item as the application reads it from the `inventory` collection.
  * The three identifier fields may be missing; a JavaScript test such as `if (product.code)`
  * is `Truthy(product.code)`: present and not the empty string.
  */
module Inventory {
  import opened Wrappers

  datatype Product = Product(
    id: string,
    name: string,
    code: Option<string>,
    barcode: Option<string>,
    qrcode: Option<string>,
    storeId: Option<string>,
    price: string,  // the price as the text `String(price)` renders
    stock: int)

  predicate Truthy(field: Option<string>) {
    field.Some? && field.value != ""
  }
}
