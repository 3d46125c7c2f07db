/** Catalog entities shared by the storefront's client-side state: products as the
    backend supplies them, and their colour and size variants. */
module Catalog {

  /** An optional value; `None` stands for a JavaScript `undefined`. */
  datatype Option<+T> = None | Some(value: T)

  /** A colour or a size of a product: its identifier, display name and value
      (a hex code for colours, a label such as "XL" for sizes). */
  datatype Variant = Variant(id: string, name: string, value: string)

  /** A catalog product. The core never changes it; only the fields the cart and
      the product page read are kept, everything else is carried in `details`. */
  datatype Product = Product(
    id: string,
    colors: seq<Variant>,
    sizes: seq<Variant>,
    details: map<string, string>)
}
