/** The catalog entry as the product API delivers it. */
module Products {

  /** Product identities; both views compare them with `===`. */
  type Id = int

  /** A catalog entry. Prices are exact (`real`), not binary floating point. */
  datatype Product = Product(
    id: Id,
    name: string,
    description: string,
    category: string,
    price: real,
    image: string
  )
}
