/**
 The storefront's records: catalogue products and categories, cart lines
 and the signed-in user.
 */
module Types {
  import opened Js

  /** The promotional badge; the type admits only these two labels. */
  datatype Tag = New | Bestseller

  /** A catalogue entry. `id`, `name`, `price`, `imageUrl` and `category` are
      always present; the other fields may be absent. `prices` maps size
      labels to prices and is not tied to `sizes` by the type. */
  datatype Product = Product(
    id: int,
    name: string,
    price: real,
    prices: Option<map<string, real>>,
    imageUrl: string,
    images: Option<seq<string>>,
    sizes: Option<seq<string>>,
    description: Option<string>,
    category: string,
    subcategory: Option<string>,
    tag: Option<Tag>)

  /** A category, optionally with child categories. */
  datatype Category = Category(name: string, subcategories: Option<seq<Category>>)

  /** A cart line: its key string, the product it refers to, how many, and
      the chosen size if any. */
  datatype CartItem = CartItem(id: string, product: Product, quantity: int, size: Option<string>)

  /** The (mock) signed-in user. */
  datatype User = User(name: string, email: string)

  /** Every line holds at least one unit. */
  predicate QuantitiesPositive(items: seq<CartItem>) {
    forall i :: 0 <= i < |items| ==> items[i].quantity >= 1
  }
}
