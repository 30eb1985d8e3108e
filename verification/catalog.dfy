/**
 The static catalogue: two top-level categories (Haircare has three
 children) and thirteen products, listed in the storefront's own order.
 */
module Catalog {
  import opened Js
  import opened Types

  const CATEGORIES: seq<Category> := [
    Category("Skincare", None),
    Category("Haircare", Some([
      Category("Shampoo", None),
      Category("Conditioner", None),
      Category("Hair Oil", None)
    ]))
  ]

  /** A product with neither sizes, extra images nor a description. */
  function Plain(id: int, name: string, price: real, seed: string, category: string,
                 subcategory: Option<string>, tag: Option<Tag>): Product
  {
    Product(id, name, price, None, "https://picsum.photos/seed/" + seed + "/400/400",
            None, None, None, category, subcategory, tag)
  }

  const GLYCOLIC_GLOSS: Product := Product(
    13,
    "Glycolic Gloss Shampoo",
    990.0,
    Some(map["440ml" := 990.0, "200ml" := 500.0]),
    "https://i.imgur.com/n0VRaGV.png",
    Some([
      "https://i.imgur.com/n0VRaGV.png",
      "https://i.imgur.com/PzWCPFx.png",
      "https://i.imgur.com/d9QaXvm.png",
      "https://i.imgur.com/GPv367e.png",
      "https://i.imgur.com/R9mYzBf.png"
    ]),
    Some(["440ml", "200ml"]),
    Some("Loreal Paris Glycolic Gloss Shampoo which makes your hair frizz-free & manageable. Enjoy smooth & glossy hair all day!"),
    "Haircare",
    Some("Shampoo"),
    Some(New))

  const PRODUCTS: seq<Product> := [
    Plain(1, "Hydrating Facial Cleanser", 24.99, "p1", "Skincare", None, Some(Bestseller)),
    Plain(2, "Vitamin C Serum", 45.0, "p2", "Skincare", None, Some(New)),
    Plain(3, "Daily Moisturizer SPF 30", 32.5, "p3", "Skincare", None, None),
    Plain(4, "Restorative Night Cream", 55.0, "p4", "Skincare", None, None),
    Plain(5, "Volumizing Shampoo", 28.0, "p5", "Haircare", Some("Shampoo"), Some(New)),
    Plain(6, "Keratin Smooth Shampoo", 30.0, "p6", "Haircare", Some("Shampoo"), None),
    GLYCOLIC_GLOSS,
    Plain(7, "Deep Hydration Conditioner", 28.0, "p7", "Haircare", Some("Conditioner"), None),
    Plain(8, "Color Protect Conditioner", 32.0, "p8", "Haircare", Some("Conditioner"), Some(Bestseller)),
    Plain(9, "Argan Hair Oil", 35.0, "p9", "Haircare", Some("Hair Oil"), None),
    Plain(10, "Rosemary Strengthening Oil", 25.50, "p10", "Haircare", Some("Hair Oil"), None),
    Plain(11, "Gentle Exfoliating Scrub", 29.99, "p11", "Skincare", None, None),
    Plain(12, "Anti-Dandruff Shampoo", 27.0, "p12", "Haircare", Some("Shampoo"), None)
  ]

  /** No two products share an id. */
  predicate IdsDistinct(ps: seq<Product>) {
    forall i, j :: 0 <= i < j < |ps| ==> ps[i].id != ps[j].id
  }

  /** Every listed size has an entry in the product's price map. */
  predicate SizesPriced(p: Product) {
    p.sizes.Some? ==> p.prices.Some? && forall k :: 0 <= k < |p.sizes.value| ==> p.sizes.value[k] in p.prices.value
  }

  /** The product's category is a top-level category, and its subcategory,
      if any, is a child of that category. */
  predicate Classified(p: Product, cats: seq<Category>) {
    exists c :: c in cats && c.name == p.category &&
      (p.subcategory.Some? ==>
         c.subcategories.Some? && exists s :: s in c.subcategories.value && s.name == p.subcategory.value)
  }

  lemma CatalogIdsDistinct()
    ensures IdsDistinct(PRODUCTS)
    ensures PRODUCTS[6].id == 13 && PRODUCTS[5].id == 6 && PRODUCTS[7].id == 7
    ensures forall k :: 0 <= k < |PRODUCTS| ==> 1 <= PRODUCTS[k].id <= 13
  {
  }

  lemma CatalogSizesPriced()
    ensures forall i :: 0 <= i < |PRODUCTS| ==> SizesPriced(PRODUCTS[i])
    ensures forall i :: 0 <= i < |PRODUCTS| && PRODUCTS[i].sizes.Some? ==> PRODUCTS[i].id == 13
  {
  }

  lemma CatalogClassified()
    ensures forall i :: 0 <= i < |PRODUCTS| ==> Classified(PRODUCTS[i], CATEGORIES)
  {
  }

  lemma CatalogPricesPositive()
    ensures forall i :: 0 <= i < |PRODUCTS| ==> PRODUCTS[i].price > 0.0
  {
  }

  /** Product 13 has five images, and its base price is the price of its
      first (default) size. */
  lemma GlycolicGlossShape()
    ensures GLYCOLIC_GLOSS in PRODUCTS && GLYCOLIC_GLOSS.id == 13
    ensures GLYCOLIC_GLOSS.images.Some? && |GLYCOLIC_GLOSS.images.value| == 5
    ensures GLYCOLIC_GLOSS.sizes == Some(["440ml", "200ml"])
    ensures GLYCOLIC_GLOSS.prices.value[GLYCOLIC_GLOSS.sizes.value[0]] == GLYCOLIC_GLOSS.price
  {
  }
}
