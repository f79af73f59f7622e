/** The admin product table: its search and category filter, the stock
    cell and the status badge. */
module AdminProducts {
  import opened Optional
  import opened Text
  import opened Catalog
  import Seqs

  /** The query occurs, ignoring case, in the name or the description. */
  predicate MatchesSearch(p: Product, q: string) {
    ContainsIgnoringCase(p.name, q) || ContainsIgnoringCase(p.description, q)
  }

  predicate Shown(p: Product, f: CategoryFilter, q: string) {
    MatchesSearch(p, q) && InCategory(f, p)
  }

  /** `filteredProducts`: the shown products, in catalogue order. */
  function FilterProducts(products: seq<Product>, f: CategoryFilter, q: string): (r: seq<Product>)
    ensures forall p :: p in r <==> p in products && Shown(p, f, q)
    ensures Seqs.IsSubseq(r, products) && |r| <= |products|
  {
    var r := Seqs.Filter(products, (p: Product) => Shown(p, f, q));
    assert forall p :: p in products && Shown(p, f, q) ==> p in r by {
      forall p | p in products && Shown(p, f, q)
        ensures p in r
      {
        var i :| 0 <= i < |products| && products[i] == p;
      }
    }
    r
  }

  /** With one category selected, every shown product is in it. */
  lemma SelectedCategoryOnly(products: seq<Product>, c: Category, q: string)
    ensures forall p :: p in FilterProducts(products, OnlyCategory(c), q) ==> p.category == c
  {
  }

  /** With "all" and an empty query every product is shown, in order. */
  lemma NoFilterShowsAll(products: seq<Product>)
    ensures FilterProducts(products, AllCategories, "") == products
  {
    forall i | 0 <= i < |products|
      ensures Shown(products[i], AllCategories, "")
    {
      ContainsEmptyQuery(products[i].name);
    }
    Seqs.FilterKeepsAll(products, (p: Product) => Shown(p, AllCategories, ""));
  }

  /** What the stock column shows. */
  datatype StockCell = Quantity(n: int) | InStockText | OutOfStockText

  /** Out of stock, the count when there is one and it is not 0 (0 reads as
      false), otherwise "In Stock". */
  function StockCellOf(p: Product): (c: StockCell)
    ensures c == OutOfStockText <==> !p.inStock
    ensures c.Quantity? <==> p.inStock && p.stockQuantity.Some? && p.stockQuantity.value != 0
    ensures c.Quantity? ==> c.n == p.stockQuantity.value
  {
    if !p.inStock then OutOfStockText
    else if p.stockQuantity.Some? && p.stockQuantity.value != 0 then Quantity(p.stockQuantity.value)
    else InStockText
  }

  /** An in-stock product with a recorded count of 0 reads "In Stock". */
  lemma ZeroCountReadsInStock(p: Product)
    requires p.inStock && p.stockQuantity == Some(0)
    ensures StockCellOf(p) == InStockText
  {
  }

  datatype StatusLabel = Featured | ActiveLabel | InactiveLabel

  /** The badge: featured first, then by stock. */
  function StatusLabelOf(p: Product): (l: StatusLabel)
    ensures l == Featured <==> p.featured
    ensures l == ActiveLabel <==> !p.featured && p.inStock
    ensures l == InactiveLabel <==> !p.featured && !p.inStock
  {
    if p.featured then Featured else if p.inStock then ActiveLabel else InactiveLabel
  }

  /** The badge and the stock cell agree on stock unless the product is
      featured, which hides an out-of-stock state from the badge. */
  lemma BadgeAgreesWithStock(p: Product)
    ensures !p.featured ==> (StatusLabelOf(p) == InactiveLabel <==> StockCellOf(p) == OutOfStockText)
    ensures p.featured && !p.inStock ==> StatusLabelOf(p) == Featured && StockCellOf(p) == OutOfStockText
  {
  }
}
