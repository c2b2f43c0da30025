/**
 * The product catalog: a fixed list of purchasable items. Prices are held in
 * integer cents, so 8.44 is 844.
 */
module Products {
  import opened Wrappers

  datatype Product = Product(
    id: string,
    name: string,
    price: int,
    description: Option<string>,
    image: Option<string>)

  const PRODUCTS: seq<Product> := [
    Product("hoodies", "Hoodies", 3523,
      Some("Comfortable team hoodies with company logo"), Some("/images/hoodies.jpg")),
    Product("quarter-zips", "Quarter Zips", 3137,
      Some("Professional quarter-zip pullovers"), Some("/images/quarter-zips.jpg")),
    Product("tshirts", "T-Shirts", 844,
      Some("Classic team t-shirts"), Some("/images/tshirts.jpg")),
    Product("polo-shirts", "Polo Shirts", 1723,
      Some("Business casual polo shirts"), Some("/images/polo-shirts.jpg")),
    Product("stickers", "Stickers", 0,
      Some("Free company logo stickers"), Some("/images/stickers.jpg"))
  ]

  /** The identifiers of the catalog, as a set. */
  const CATALOG_IDS: set<string> := {"hoodies", "quarter-zips", "tshirts", "polo-shirts", "stickers"}

  predicate DistinctIds(catalog: seq<Product>) {
    forall i, j :: 0 <= i < j < |catalog| ==> catalog[i].id != catalog[j].id
  }

  /** `catalog.find(p => p.id === id)`: the first product with that id, if any. */
  function FindProduct(catalog: seq<Product>, id: string): (r: Option<Product>)
    ensures r.Some? ==> r.value in catalog && r.value.id == id
    ensures r.Some? ==> exists i :: 0 <= i < |catalog| && catalog[i] == r.value &&
                          forall j :: 0 <= j < i ==> catalog[j].id != id
    ensures r.None? <==> forall i :: 0 <= i < |catalog| ==> catalog[i].id != id
  {
    if catalog == [] then None
    else if catalog[0].id == id then Some(catalog[0])
    else
      var r := FindProduct(catalog[1..], id);
      assert forall i :: 0 <= i < |catalog| - 1 ==> catalog[1..][i] == catalog[i + 1];
      r
  }

  /** Whether the catalog sells a product with this id. */
  predicate InCatalog(id: string) {
    FindProduct(PRODUCTS, id).Some?
  }

  /** The catalog: five products, distinct ids, no negative price. */
  lemma CatalogShape()
    ensures |PRODUCTS| == 5
    ensures DistinctIds(PRODUCTS)
    ensures forall i :: 0 <= i < |PRODUCTS| ==> PRODUCTS[i].price >= 0
  {
  }

  /** With distinct ids, the product `find` returns is the only one with that id. */
  lemma FindUnique(catalog: seq<Product>, id: string, k: nat)
    requires DistinctIds(catalog)
    requires k < |catalog| && catalog[k].id == id
    ensures FindProduct(catalog, id) == Some(catalog[k])
  {
  }

  /** A product is found exactly when its id is one of the five catalog ids. */
  lemma InCatalogIds(id: string)
    ensures InCatalog(id) <==> id in CATALOG_IDS
  {
    if id in CATALOG_IDS {
      var k := if id == "hoodies" then 0 else if id == "quarter-zips" then 1
                else if id == "tshirts" then 2 else if id == "polo-shirts" then 3 else 4;
      FindUnique(PRODUCTS, id, k);
    }
  }

  /** The stickers are free and the t-shirts cost 8.44. */
  lemma CatalogPrices()
    ensures FindProduct(PRODUCTS, "stickers") == Some(PRODUCTS[4]) && PRODUCTS[4].price == 0
    ensures FindProduct(PRODUCTS, "tshirts") == Some(PRODUCTS[2]) && PRODUCTS[2].price == 844
  {
    FindUnique(PRODUCTS, "stickers", 4);
    FindUnique(PRODUCTS, "tshirts", 2);
  }
}
