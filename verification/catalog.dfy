/** The product record shared by the storefront, the search modal, the cart
    and the admin screens, and the four categories of the shop. */
module Catalog {
  import opened Optional
  import Seqs

  datatype Category = Vitamins | Protein | Wellness | Sports

  /** A category's id, which is also its slug in links. */
  function CategoryId(c: Category): string {
    match c
    case Vitamins => "vitamins"
    case Protein => "protein"
    case Wellness => "wellness"
    case Sports => "sports"
  }

  /** The categories in the order the filters and menus list them. */
  const Categories: seq<Category> := [Vitamins, Protein, Wellness, Sports]

  /** A catalogue entry. Prices are exact reals; `createdAt` is an instant in
      milliseconds. Images, ingredients, nutrition facts and tags are not
      consulted by any rule of the model and are left out. */
  datatype Product = Product(
    id: string,
    name: string,
    slug: string,
    category: Category,
    price: real,
    compareAtPrice: Option<real>,
    description: string,
    benefits: seq<string>,
    inStock: bool,
    stockQuantity: Option<int>,
    featured: bool,
    flavour: Option<string>,
    createdAt: int
  )

  /** A category selector whose first choice is "all". */
  datatype CategoryFilter = AllCategories | OnlyCategory(category: Category)

  predicate InCategory(f: CategoryFilter, p: Product) {
    f.AllCategories? || p.category == f.category
  }

  /** The catalogue lookup by category, taken to be a filter that keeps
      catalogue order. */
  function ProductsByCategory(all: seq<Product>, c: Category): (r: seq<Product>)
    ensures forall p :: p in r ==> p in all && p.category == c
    ensures forall p :: p in all && p.category == c ==> p in r
    ensures Seqs.IsSubseq(r, all)
  {
    Seqs.Filter(all, (p: Product) => p.category == c)
  }
}
