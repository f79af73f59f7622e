/** The storefront's header navigation: which links are highlighted for
    the current path, and where the category links lead. */
module Navigation {
  import opened Text
  import opened Catalog

  /** `isActive`: the home link only on the home page itself, every other
      link on any path that starts with its own. */
  function IsActive(pathname: string, path: string): (b: bool)
    ensures path == "/" ==> (b <==> pathname == "/")
    ensures path != "/" ==> (b <==> |path| <= |pathname| && pathname[..|path|] == path)
  {
    if path == "/" then pathname == "/" else StartsWith(pathname, path)
  }

  /** A link other than home is active on its own path and on every path
      that extends it. */
  lemma ActiveOnExtensions(path: string, rest: string)
    requires path != "/"
    ensures IsActive(path + rest, path)
  {
    assert (path + rest)[..|path|] == path;
  }

  /** The prefix test does not look at path segments: "/products" is also
      highlighted on "/productsale". */
  lemma NotSegmentAware()
    ensures IsActive("/productsale", "/products")
    ensures IsActive("/products/whey", "/products")
  {
  }

  /** The home link is highlighted only on the home page. */
  lemma HomeOnlyAtRoot(pathname: string)
    requires pathname != "/"
    ensures !IsActive(pathname, "/")
  {
  }

  /** The link for a category, by its slug. */
  function CategoryHref(c: Category): (href: string)
    ensures href == "/products?category=" + CategoryId(c)
    ensures StartsWith(href, "/products")
  {
    var href := "/products?category=" + CategoryId(c);
    assert href[..|"/products"|] == "/products";
    href
  }

  /** The desktop "Categories" button is highlighted under "/products". */
  function CategoriesHighlighted(pathname: string): bool {
    StartsWith(pathname, "/products")
  }

  /** ... which is exactly when the "Products" link is. */
  lemma CategoriesFollowProducts(pathname: string)
    ensures CategoriesHighlighted(pathname) <==> IsActive(pathname, "/products")
  {
  }
}
